/** What the gateway's bytes say: on an EVM chain they decode to the reserved
    nonce and the requested recipient and amount. */
module SagaBytes {
  import opened Text
  import opened Bytes
  import opened Records
  import opened Eip155
  import opened Withdrawals
  import opened Saga
  import opened SagaNonces
  import opened SagaReal
  import opened SagaPayments

  /** Nonces are never negative, and an EVM row with bytes has one. */
  predicate NonceOk(w: World, id: Id) {
    HasAccount(w.t, id) ==>
      && (Row(w, id).nonce.Some? ==> Row(w, id).nonce.value >= 0)
      && (IsEvm(AccountOf(w.t, id).1) && Row(w, id).signedTx != [] ==> Row(w, id).nonce.Some?)
  }

  ghost predicate Counted(w: World) {
    Shape(w) && CountersOk(w) && forall id :: NonceOk(w, id)
  }

  ghost predicate Counts(w: World, w': World, id: Id) { CountersOk(w') && NonceOk(w', id) }

  lemma ReserveCounts(w: World, id: Id, granted: bool)
    requires CountersOk(w) && CallOk(w, id) && RowOk(w, id) && NonceOk(w, id)
    ensures Counts(w, DoReserve(w, id, granted), id)
  {
    if Running(w, id) {
      var k := AccountOf(w.t, id);
      if IsEvm(k.1) {
      } else if k.1 == Bitcoin {
        BitcoinRollbackIsIdle(w, k);
      }
    }
  }

  lemma FinishCounts(w: World, id: Id, o: Outcome)
    requires CountersOk(w) && CallOk(w, id) && RowOk(w, id) && NonceOk(w, id)
    ensures Counts(w, DoFinish(w, id, o), id)
  {
  }

  lemma BroadcastCounts(w: World, id: Id, txHash: Option<string>)
    requires CountersOk(w) && CallOk(w, id) && RowOk(w, id) && NonceOk(w, id)
    ensures Counts(w, DoBroadcast(w, id, txHash), id)
  {
  }

  lemma DecideCounts(w: World, id: Id, v: Verdict)
    requires CountersOk(w) && CallOk(w, id) && NonceOk(w, id)
    ensures Counts(w, DoDecide(w, id, v), id)
  {
  }

  lemma ReorgCounts(w: World, id: Id, ops: seq<string>)
    requires CountersOk(w) && NonceOk(w, id)
    ensures Counts(w, DoReorg(w, id, ops), id)
  {
  }

  lemma StepCounts(w: World, s: Step)
    requires CountersOk(w) && CallOk(w, IdOf(s)) && RowOk(w, IdOf(s)) && NonceOk(w, IdOf(s))
    ensures Counts(w, Next(w, s), IdOf(s))
  {
    match s
    case AddWallet(_, _) =>
    case SetWallet(_, _) =>
    case Track(_, _) =>
    case PruneStep(_) =>
    case OpenStep(id, r) =>
    case DecideStep(id, v) => DecideCounts(w, id, v);
    case ListStep(id, wanted) =>
    case ReserveStep(id, granted) => ReserveCounts(w, id, granted);
    case FinishStep(id, o) => FinishCounts(w, id, o);
    case BroadcastStep(id, txHash) => BroadcastCounts(w, id, txHash);
    case ConfirmStep(id, hash) =>
    case FailStep(id, reason) =>
    case ReorgStep(id, ops) => ReorgCounts(w, id, ops);
  }

  lemma {:induction false} RunCounts(w: World, steps: seq<Step>)
    requires Counted(w)
    ensures Counted(Run(w, steps))
    decreases |steps|
  {
    if steps != [] {
      StepKeepsCounted(w, steps[0]);
      RunCounts(Next(w, steps[0]), steps[1..]);
    }
  }

  lemma StepKeepsCounted(w: World, s: Step)
    requires Counted(w)
    ensures Counted(Next(w, s))
  {
    var id, w' := IdOf(s), Next(w, s);
    assert CallOk(w, id) && RowOk(w, id) && NonceOk(w, id);
    StepKeepsShape(w, s);
    StepCounts(w, s);
    forall j | j != id ensures NonceOk(w', j) {
      assert RowOk(w, j) && NonceOk(w, j);
    }
  }

  // ----- provenance -----

  /** The bytes are what assembling the request and the reservation with the
      signer's answer gives. */
  predicate MadeFrom(c: Codecs, chain: Chain, to: string, amount: string, h: Hold, bytes: seq<Byte>, s: Signing) {
    OutcomeOf(c, chain, to, amount, h, Some(s.signature)) == Assembled(bytes, s)
  }

  predicate IsMade(c: Codecs, w: World, id: Id) {
    && HasAccount(w.t, id) && id in w.signings
    && MadeFrom(c, AccountOf(w.t, id).1, Row(w, id).to, Row(w, id).amount, HoldOn(Row(w, id)), Row(w, id).signedTx, w.signings[id])
  }

  predicate MadeOk(c: Codecs, w: World, id: Id) { id in w.signings ==> IsMade(c, w, id) }

  ghost predicate Made(c: Codecs, w: World) { Trusted(w) && forall id :: MadeOk(c, w, id) }

  lemma FinishIsMade(c: Codecs, w: World, id: Id, o: Outcome)
    requires CallOk(w, id) && RowOk(w, id) && CanFinish(w, id) && o.Assembled? && Real(c, w, FinishStep(id, o))
    ensures IsMade(c, DoFinish(w, id, o), id)
  {
    var signature :| o == OutcomeFor(c, w, id, signature);
  }

  lemma SigningsStay(w: World, s: Step, j: Id)
    requires j in Next(w, s).signings
    ensures j in w.signings || (s.FinishStep? && s.id == j && CanFinish(w, j) && s.o.Assembled?)
  {
  }

  lemma StepKeepsMadeAt(c: Codecs, w: World, s: Step, j: Id)
    requires Made(c, w) && Real(c, w, s)
    ensures MadeOk(c, Next(w, s), j)
  {
    var w' := Next(w, s);
    assert CallOk(w, IdOf(s)) && RowOk(w, IdOf(s)) && MadeOk(c, w, j) && Recorded(w, j);
    if s.FinishStep? && s.id == j && CanFinish(w, j) && s.o.Assembled? {
      FinishIsMade(c, w, j, s.o);
    } else if j in w'.signings {
      SigningsStay(w, s, j);
      StepIsLocal(w, s);
      AllOnward(w, s, j);
    }
  }

  lemma {:induction false} RunKeepsMade(c: Codecs, w: World, steps: seq<Step>)
    requires Made(c, w) && RealRun(c, w, steps)
    ensures Made(c, Run(w, steps))
    decreases |steps|
  {
    if steps != [] {
      StepKeepsTrust(w, steps[0]);
      forall j ensures MadeOk(c, Next(w, steps[0]), j) { StepKeepsMadeAt(c, w, steps[0], j); }
      RunKeepsMade(c, Next(w, steps[0]), steps[1..]);
    }
  }

  /** A transaction as a decoder sees it: this nonce, recipient and amount, at the
      configured price, with the fixed limit and no data. */
  predicate IsRequested(c: Codecs, tx: LegacyTx, n: int, to: string, amount: string) {
    && tx.nonce == n && EvmAddress.ParseAddress(to) == Some(tx.to)
    && ParseDecimal(amount).Some? && tx.value == Abs(ParseDecimal(amount).value)
    && tx.gasPrice == Abs(c.cfg.gasPrice) && tx.gasLimit == 21000 && tx.data == []
  }

  /** Bytes made for an EVM chain carry exactly the request, the nonce and the
      signer's answer, and so does what was hashed for the signer, with the chain
      id in place of the answer. */
  lemma MadeDecodes(c: Codecs, chain: Chain, to: string, amount: string, h: Hold, bytes: seq<Byte>, s: Signing)
    requires IsEvm(chain) && MadeFrom(c, chain, to, amount, h, bytes, s)
    requires bytes != [] ==> h.nonce >= 0
    ensures DecodeSigned(bytes).Some? && s.preimage.Some?
    ensures var (tx, sg) := DecodeSigned(bytes).value;
      && IsRequested(c, tx, h.nonce, to, amount) && Carries(sg, s.signature, c.cfg.chainId)
      && DecodeSigned(s.preimage.value) == Some((tx, Signature(0, 0, Abs(c.cfg.chainId))))
  {
    assert bytes != [];
    AssembledCarriesRequest(c.cfg, to, amount, h.nonce, s.signature);
    var tx := BuildTx(c.cfg, to, amount, h.nonce).value;
    PreimageDecodes(tx, c.cfg.chainId);
    DecodeOfEncode(tx, SigFromMpc(s.signature, c.cfg.chainId).value);
  }

  /** A receiver of such bytes rebuilds what the signer was given if and only if
      the recovery id in the signer's answer is 0 or 1. */
  lemma MadeRebuildsIff(c: Codecs, chain: Chain, to: string, amount: string, h: Hold, bytes: seq<Byte>, s: Signing)
    requires IsEvm(chain) && MadeFrom(c, chain, to, amount, h, bytes, s) && c.cfg.chainId >= 0
    ensures |s.signature| == 65 && 27 <= s.signature[0] <= 34
    ensures RebuildPreimage(bytes) == s.preimage <==> RecoveryId(s.signature[0]) <= 1
  {
    RebuildIff(BuildTx(c.cfg, to, amount, h.nonce).value, c.cfg.chainId, s.signature);
  }

  /** In every real run, whatever the gateway received for a withdrawal on an EVM
      chain decodes to that withdrawal's nonce, recipient and amount, the amount
      up to its sign, and to the signer's answer; what was hashed for the signer
      decodes to the same transaction. */
  lemma GatewayBytesDecode(c: Codecs, steps: seq<Step>, i: nat)
    requires RealRun(c, START, steps) && i < |Run(START, steps).sent|
    ensures var w := Run(START, steps); var id := w.sent[i].id;
      && HasAccount(w.t, id)
      && (IsEvm(AccountOf(w.t, id).1) ==>
            && DecodeSigned(w.sent[i].bytes).Some? && id in w.signings && w.signings[id].preimage.Some?
            && var (tx, sg) := DecodeSigned(w.sent[i].bytes).value;
               && Row(w, id).nonce == Some(tx.nonce as int)
               && IsRequested(c, tx, tx.nonce, Row(w, id).to, Row(w, id).amount)
               && Carries(sg, w.signings[id].signature, c.cfg.chainId)
               && DecodeSigned(w.signings[id].preimage.value) == Some((tx, Signature(0, 0, Abs(c.cfg.chainId)))))
  {
    RunKeepsMade(c, START, steps);
    RunCounts(START, steps);
    var w := Run(START, steps);
    var id := w.sent[i].id;
    assert MadeOk(c, w, id) && NonceOk(w, id);
    if IsEvm(AccountOf(w.t, id).1) {
      MadeDecodes(c, AccountOf(w.t, id).1, Row(w, id).to, Row(w, id).amount, HoldOn(Row(w, id)), w.sent[i].bytes, w.signings[id]);
    }
  }

  /** In every real run, the bytes the gateway received for an EVM withdrawal rebuild
      the preimage that was hashed for the signer if and only if the signer's
      answer carries recovery id 0 or 1. */
  lemma GatewayRebuildsIff(c: Codecs, steps: seq<Step>, i: nat)
    requires RealRun(c, START, steps) && i < |Run(START, steps).sent| && c.cfg.chainId >= 0
    ensures var w := Run(START, steps); var id := w.sent[i].id;
      && HasAccount(w.t, id) && id in w.signings
      && (IsEvm(AccountOf(w.t, id).1) ==>
            && |w.signings[id].signature| == 65 && 27 <= w.signings[id].signature[0] <= 34
            && (RebuildPreimage(w.sent[i].bytes) == w.signings[id].preimage
                <==> RecoveryId(w.signings[id].signature[0]) <= 1))
  {
    RunKeepsMade(c, START, steps);
    var w := Run(START, steps);
    var id := w.sent[i].id;
    assert MadeOk(c, w, id);
    if IsEvm(AccountOf(w.t, id).1) {
      MadeRebuildsIff(c, AccountOf(w.t, id).1, Row(w, id).to, Row(w, id).amount, HoldOn(Row(w, id)), w.sent[i].bytes, w.signings[id]);
    }
  }

  /** In every real run, the bytes of a signed, broadcast or confirmed withdrawal,
      and those the gateway received, are assembled from that withdrawal's own
      request and reservation with the signer's answer. */
  lemma BytesAreGenuine(c: Codecs, steps: seq<Step>)
    requires RealRun(c, START, steps)
    ensures var w := Run(START, steps);
      && (forall id :: id in w.t.withdrawals && Row(w, id).stage in {Signed, Broadcast, Confirmed} ==> IsMade(c, w, id))
      && (forall i :: 0 <= i < |w.sent| ==> IsMade(c, w, w.sent[i].id) && w.sent[i].bytes == Row(w, w.sent[i].id).signedTx)
  {
    RunKeepsMade(c, START, steps);
    var w := Run(START, steps);
    forall id | id in w.t.withdrawals && Row(w, id).stage in {Signed, Broadcast, Confirmed} ensures IsMade(c, w, id) {
      assert Recorded(w, id) && MadeOk(c, w, id);
    }
    forall i | 0 <= i < |w.sent| ensures IsMade(c, w, w.sent[i].id) {
      assert MadeOk(c, w, w.sent[i].id);
    }
  }
}
