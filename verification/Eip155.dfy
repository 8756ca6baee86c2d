/** Legacy EVM transactions: the EIP-155 signing preimage, the signed form and
    the decoder that recovers one from the other. */
module Eip155 {
  import opened Bytes
  import opened Text
  import opened Rlp
  import EvmAddress

  type U64 = n: nat | n < LIMIT

  datatype LegacyTx = LegacyTx(nonce: U64, gasPrice: int, gasLimit: U64, to: seq<Byte>, value: int, data: seq<Byte>)

  datatype Signature = Signature(r: nat, s: nat, v: int)

  const GAS_LIMIT: U64 := 21000

  // ----- encoders -----

  function BodyFields(tx: LegacyTx): seq<seq<Byte>> {
    [Big(tx.nonce), Big(Abs(tx.gasPrice)), Big(tx.gasLimit), tx.to, Big(Abs(tx.value)), tx.data]
  }

  function SigningFields(tx: LegacyTx, chainId: int): seq<seq<Byte>> {
    BodyFields(tx) + [Big(Abs(chainId)), [], []]
  }

  function SignedFields(tx: LegacyTx, sg: Signature): seq<seq<Byte>> {
    BodyFields(tx) + [Big(Abs(sg.v)), Big(sg.r), Big(sg.s)]
  }

  /** What is hashed for the signer. A list decoder finds nine fields in it: nonce,
      price, limit, recipient, value, data, chain id and two empty ones. */
  method EncodeLegacyForSigning(tx: LegacyTx, chainId: int) returns (out: seq<Byte>)
    requires Fits(SigningFields(tx, chainId))
    ensures out == EncodeList(SigningFields(tx, chainId))
    ensures DecodeList(out) == Some(([Big(tx.nonce), Big(Abs(tx.gasPrice)), Big(tx.gasLimit), tx.to, Big(Abs(tx.value)),
                                      tx.data, Big(Abs(chainId)), [], []], []))
    ensures DecodeSigned(out) == Some((Magnitudes(tx), Signature(0, 0, Abs(chainId))))
  {
    var nonce := BigUint(tx.nonce);
    var gasLimit := BigUint(tx.gasLimit);
    var elems: seq<seq<Byte>> :=
      [nonce, Big(Abs(tx.gasPrice)), gasLimit, tx.to, Big(Abs(tx.value)), tx.data, Big(Abs(chainId)), [], []];
    assert elems == SigningFields(tx, chainId);
    out := EvmEncodeList(elems);
    PreimageDecodes(tx, chainId);
  }

  /** What is sent. A list decoder finds nine fields in it, the last three v, r
      and s. */
  method EncodeSignedTx(tx: LegacyTx, sg: Signature) returns (out: seq<Byte>)
    requires Fits(SignedFields(tx, sg))
    ensures out == EncodeList(SignedFields(tx, sg))
    ensures DecodeList(out) == Some(([Big(tx.nonce), Big(Abs(tx.gasPrice)), Big(tx.gasLimit), tx.to, Big(Abs(tx.value)),
                                      tx.data, Big(Abs(sg.v)), Big(sg.r), Big(sg.s)], []))
  {
    var nonce := BigUint(tx.nonce);
    var gasLimit := BigUint(tx.gasLimit);
    var elems := [nonce, Big(Abs(tx.gasPrice)), gasLimit, tx.to, Big(Abs(tx.value)), tx.data, Big(Abs(sg.v)), Big(sg.r), Big(sg.s)];
    assert elems == SignedFields(tx, sg);
    out := EvmEncodeList(elems);
    ListRoundTrip(elems, []);
    assert out + [] == out;
  }

  /** Recovery id in a compact-signature header, the compressed-key bit removed. */
  function RecoveryId(header: Byte): int
    requires 27 <= header <= 34
  {
    if header - 27 >= 4 then header - 31 else header - 27
  }

  function SigFromMpc(sig: seq<Byte>, chainId: int): (r: Option<Signature>) {
    if |sig| != 65 || sig[0] < 27 || sig[0] > 34 then None
    else Some(Signature(Nat(sig[1..33]), Nat(sig[33..65]), chainId * 2 + 35 + RecoveryId(sig[0])))
  }

  // ----- building and assembling a withdrawal -----

  datatype EvmConfig = EvmConfig(gasPrice: int, chainId: int)

  function BuildTx(cfg: EvmConfig, toAddress: string, amount: string, nonce: int): (r: Option<LegacyTx>)
    requires nonce < LIMIT
  {
    match (EvmAddress.ParseAddress(toAddress), ParseDecimal(amount))
    case (Some(to), Some(value)) =>
      Some(LegacyTx(if nonce < 0 then 0 else nonce, cfg.gasPrice, GAS_LIMIT, to, value, []))
    case _ => None
  }

  /** The bytes sent to the gateway. Nothing larger than the length type can be
      assembled. */
  function AssembleTx(cfg: EvmConfig, tx: LegacyTx, sig: seq<Byte>): (r: Option<seq<Byte>>)
    ensures r.Some? ==> r.value != []
  {
    match SigFromMpc(sig, cfg.chainId)
    case Some(sg) => if Fits(SignedFields(tx, sg)) then Some(EncodeList(SignedFields(tx, sg))) else None
    case None => None
  }

  // ----- decoding -----

  /** Signs are lost in the encoding: what a decoder can see of a transaction. */
  function Magnitudes(tx: LegacyTx): LegacyTx {
    tx.(gasPrice := Abs(tx.gasPrice), value := Abs(tx.value))
  }

  function FromFields(f: seq<seq<Byte>>): Option<(LegacyTx, Signature)> {
    if |f| != 9 || Nat(f[0]) >= LIMIT || Nat(f[2]) >= LIMIT then None
    else Some((LegacyTx(Nat(f[0]), Nat(f[1]), Nat(f[2]), f[3], Nat(f[4]), f[5]),
               Signature(Nat(f[7]), Nat(f[8]), Nat(f[6]))))
  }

  function DecodeSigned(bytes: seq<Byte>): Option<(LegacyTx, Signature)> {
    match DecodeList(bytes)
    case Some((f, rest)) => if rest == [] then FromFields(f) else None
    case None => None
  }

  /** What a receiver hashes to check the signature: the six body fields and the
      chain id that v claims, (v - 35) / 2. */
  function RebuildPreimage(bytes: seq<Byte>): Option<seq<Byte>> {
    match DecodeSigned(bytes)
    case Some((tx, sg)) =>
      if sg.v < 35 || !Fits(SigningFields(tx, (sg.v - 35) / 2)) then None
      else Some(EncodeList(SigningFields(tx, (sg.v - 35) / 2)))
    case None => None
  }

  lemma FromSignedFields(tx: LegacyTx, sg: Signature)
    ensures FromFields(SignedFields(tx, sg)) == Some((Magnitudes(tx), sg.(v := Abs(sg.v))))
  {
    NatOfBig(tx.nonce);
    NatOfBig(Abs(tx.gasPrice));
    NatOfBig(tx.gasLimit);
    NatOfBig(Abs(tx.value));
    NatOfBig(Abs(sg.v));
    NatOfBig(sg.r);
    NatOfBig(sg.s);
  }

  /** Decoding the broadcast bytes gives back the transaction and the signature. */
  lemma DecodeOfEncode(tx: LegacyTx, sg: Signature)
    requires Fits(SignedFields(tx, sg))
    ensures DecodeSigned(EncodeList(SignedFields(tx, sg))) == Some((Magnitudes(tx), sg.(v := Abs(sg.v))))
  {
    var f := SignedFields(tx, sg);
    var e := EncodeList(f);
    ListRoundTrip(f, []);
    assert e + [] == e;
    FromSignedFields(tx, sg);
  }

  /** The preimage carries the transaction, and the chain id where the signed form
      carries v; r and s are zero. */
  lemma PreimageDecodes(tx: LegacyTx, chainId: int)
    requires Fits(SigningFields(tx, chainId))
    ensures var e := EncodeList(SigningFields(tx, chainId));
      && DecodeList(e) == Some(([Big(tx.nonce), Big(Abs(tx.gasPrice)), Big(tx.gasLimit), tx.to, Big(Abs(tx.value)),
                                 tx.data, Big(Abs(chainId)), [], []], []))
      && DecodeSigned(e) == Some((Magnitudes(tx), Signature(0, 0, Abs(chainId))))
  {
    var zero, f := Signature(0, 0, chainId), SigningFields(tx, chainId);
    NineFields(tx, chainId);
    assert f == SignedFields(tx, zero);
    DecodeOfEncode(tx, zero);
    ListRoundTrip(f, []);
    assert EncodeList(f) + [] == EncodeList(f);
  }

  lemma NineFields(tx: LegacyTx, chainId: int)
    ensures Big(0) == []
    ensures SigningFields(tx, chainId) == [Big(tx.nonce), Big(Abs(tx.gasPrice)), Big(tx.gasLimit), tx.to,
                                           Big(Abs(tx.value)), tx.data, Big(Abs(chainId)), [], []]
  {
  }

  /** Two signing preimages agree exactly when every field agrees up to the sign
      of the price, the value and the chain id. */
  lemma PreimageIff(a: LegacyTx, chainA: int, b: LegacyTx, chainB: int)
    requires Fits(SigningFields(a, chainA)) && Fits(SigningFields(b, chainB))
    ensures EncodeList(SigningFields(a, chainA)) == EncodeList(SigningFields(b, chainB))
       <==> Magnitudes(a) == Magnitudes(b) && Abs(chainA) == Abs(chainB)
  {
    var f, g := SigningFields(a, chainA), SigningFields(b, chainB);
    if EncodeList(f) == EncodeList(g) {
      EncodeInjective(f, g);
      assert f[0] == g[0] && f[1] == g[1] && f[2] == g[2] && f[3] == g[3];
      assert f[4] == g[4] && f[5] == g[5] && f[6] == g[6];
      BigInjective(a.nonce, b.nonce);
      BigInjective(Abs(a.gasPrice), Abs(b.gasPrice));
      BigInjective(a.gasLimit, b.gasLimit);
      BigInjective(Abs(a.value), Abs(b.value));
      BigInjective(Abs(chainA), Abs(chainB));
    }
    if Magnitudes(a) == Magnitudes(b) && Abs(chainA) == Abs(chainB) {
      assert f == g;
    }
  }

  /** With non-negative amounts the signing preimage is injective in every field
      and in the chain id. */
  lemma PreimageInjective(a: LegacyTx, chainA: int, b: LegacyTx, chainB: int)
    requires Fits(SigningFields(a, chainA)) && Fits(SigningFields(b, chainB))
    requires a.gasPrice >= 0 && a.value >= 0 && b.gasPrice >= 0 && b.value >= 0
    requires chainA >= 0 && chainB >= 0
    requires EncodeList(SigningFields(a, chainA)) == EncodeList(SigningFields(b, chainB))
    ensures a == b && chainA == chainB
  {
    PreimageIff(a, chainA, b, chainB);
  }

  /** A negative amount signs the same preimage as its magnitude. */
  lemma NegativeValueCollides(a: LegacyTx, chainId: int)
    requires Fits(SigningFields(a, chainId))
    ensures SigningFields(a.(value := -a.value), chainId) == SigningFields(a, chainId)
  {
    assert Abs(-a.value) == Abs(a.value);
  }

  /** The receiver rebuilds exactly the preimage that was hashed for signing if
      and only if the recovery id is 0 or 1. Ids 2 and 3 pass the header check
      and shift the claimed chain id by one. */
  lemma RebuildIff(tx: LegacyTx, chainId: nat, sig: seq<Byte>)
    requires SigFromMpc(sig, chainId).Some?
    requires Fits(SigningFields(tx, chainId))
    requires Fits(SignedFields(tx, SigFromMpc(sig, chainId).value))
    ensures RebuildPreimage(EncodeList(SignedFields(tx, SigFromMpc(sig, chainId).value)))
            == Some(EncodeList(SigningFields(tx, chainId)))
       <==> RecoveryId(sig[0]) <= 1
  {
    var sg := SigFromMpc(sig, chainId).value;
    var id := RecoveryId(sig[0]);
    DecodeOfEncode(tx, sg);
    var claimed := (sg.v - 35) / 2;
    assert claimed == if id <= 1 then chainId else chainId + 1;
    if id > 1 && Fits(SigningFields(tx, claimed)) {
      PreimageIff(tx, claimed, tx, chainId);
    }
  }

  /** The signature carries the answer's bytes: r is bytes 1 to 32, s is bytes 33 to
      64, and v is the chain id twice, 35, and the header's recovery id. */
  predicate Carries(sg: Signature, sig: seq<Byte>, chainId: int) {
    && |sig| == 65 && 27 <= sig[0] <= 34
    && Fixed(sg.r, 32) == sig[1..33] && Fixed(sg.s, 32) == sig[33..65]
    && sg.v == Abs(2 * chainId + 35 + (sig[0] - 27) % 4)
  }

  /** An answer is refused exactly for its length or its header, and what is taken
      from it is the answer. */
  lemma SigFromMpcIff(sig: seq<Byte>, chainId: int)
    ensures SigFromMpc(sig, chainId).Some? <==> |sig| == 65 && 27 <= sig[0] <= 34
    ensures SigFromMpc(sig, chainId).Some? ==>
      var sg := SigFromMpc(sig, chainId).value; Carries(sg.(v := Abs(sg.v)), sig, chainId)
  {
    if SigFromMpc(sig, chainId).Some? {
      HalvesComeBack(sig);
      assert RecoveryId(sig[0]) == (sig[0] - 27) % 4;
    }
  }

  lemma HalvesComeBack(sig: seq<Byte>)
    requires |sig| == 65
    ensures Fixed(Nat(sig[1..33]), 32) == sig[1..33] && Fixed(Nat(sig[33..65]), 32) == sig[33..65]
  {
    FixedOfNat(sig[1..33]);
    FixedOfNat(sig[33..65]);
  }

  /** End to end: the bytes assembled for the gateway decode to the reserved nonce,
      the configured price, the parsed recipient, the magnitude of the parsed
      amount and the signer's answer. */
  lemma AssembledCarriesRequest(cfg: EvmConfig, toAddress: string, amount: string, nonce: nat, sig: seq<Byte>)
    requires nonce < LIMIT
    requires BuildTx(cfg, toAddress, amount, nonce).Some?
    requires AssembleTx(cfg, BuildTx(cfg, toAddress, amount, nonce).value, sig).Some?
    ensures var bytes := AssembleTx(cfg, BuildTx(cfg, toAddress, amount, nonce).value, sig).value;
            && DecodeSigned(bytes).Some?
            && var (tx, sg) := DecodeSigned(bytes).value;
               && tx.nonce == nonce && tx.gasPrice == Abs(cfg.gasPrice)
               && EvmAddress.ParseAddress(toAddress) == Some(tx.to)
               && ParseDecimal(amount).Some?
               && tx.value == Abs(ParseDecimal(amount).value)
               && tx.gasLimit == 21000 && tx.data == []
               && Carries(sg, sig, cfg.chainId)
  {
    var tx := BuildTx(cfg, toAddress, amount, nonce).value;
    DecodeOfEncode(tx, SigFromMpc(sig, cfg.chainId).value);
    SigFromMpcIff(sig, cfg.chainId);
  }
}
