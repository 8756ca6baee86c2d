/** What leaves the house: policy approved it, it is what was stored, it leaves
    once, and failed is final. */
module SagaPayments {
  import opened Text
  import opened Records
  import opened Withdrawals
  import opened Saga

  /** A signing call runs. */
  predicate IsSigning(w: World, id: Id) { id in w.calls && !w.calls[id].Deciding? }

  predicate Sanctioned(w: World, id: Id) {
    && (id in w.t.withdrawals && Row(w, id).stage in {Whitelisted, Signed, Broadcast, Confirmed} ==> id in w.approved)
    && (IsSigning(w, id) ==> id in w.approved)
  }

  /** Past signing, or failed for good: no call is running. */
  predicate IsPast(w: World, id: Id) {
    id !in w.calls && id in w.t.withdrawals && Row(w, id).stage in {Signed, Broadcast, Confirmed, Failed}
  }

  predicate IsOut(w: World, id: Id) { IsPast(w, id) && Row(w, id).stage != Signed }

  /** A signing is recorded for every withdrawal that is signed or further, and for
      none that is not past it. */
  predicate Recorded(w: World, id: Id) {
    && (id in w.t.withdrawals && Row(w, id).stage in {Signed, Broadcast, Confirmed} ==> id in w.signings)
    && (id in w.signings ==> IsPast(w, id))
  }

  /** The request, the reservation and the bytes are the same. */
  predicate SamePayment(v: Withdrawal, w: Withdrawal) {
    && v.wallet == w.wallet && v.to == w.to && v.amount == w.amount && v.nonce == w.nonce && v.outpoints == w.outpoints
    && v.signedTx == w.signedTx
  }

  predicate SameSigning(w: World, w': World, id: Id) {
    id in w.signings ==> id in w'.signings && w'.signings[id] == w.signings[id]
  }

  /** Failed without a running call is final, and what is signed or may be out is
      never rewritten. */
  predicate Onward(w: World, w': World, id: Id) {
    id in w.t.withdrawals ==>
      && id in w'.t.withdrawals
      && (IsPast(w, id) && Row(w, id).stage == Failed ==> Row(w', id).stage == Failed)
      && (IsOut(w, id) ==> IsOut(w', id))
      && (IsPast(w, id) ==> IsPast(w', id) && SamePayment(Row(w, id), Row(w', id)) && SameSigning(w, w', id))
  }

  predicate Proper(w: World, w': World, id: Id) { Sanctioned(w', id) && Recorded(w', id) && Onward(w, w', id) }

  predicate Before(w: World, id: Id) { CallOk(w, id) && RowOk(w, id) && Sanctioned(w, id) && Recorded(w, id) }

  lemma DecideIsProper(w: World, id: Id, v: Verdict)
    requires Before(w, id)
    ensures Proper(w, DoDecide(w, id, v), id)
  {
    if Approves(v) {
    }
  }

  lemma ReserveIsProper(w: World, id: Id, granted: bool)
    requires Before(w, id)
    ensures Proper(w, DoReserve(w, id, granted), id)
  {
    if Running(w, id) && IsEvm(AccountOf(w.t, id).1) {
    }
  }

  lemma FinishIsProper(w: World, id: Id, o: Outcome)
    requires Before(w, id)
    ensures Proper(w, DoFinish(w, id, o), id)
  {
  }

  lemma BroadcastIsProper(w: World, id: Id, txHash: Option<string>)
    requires Before(w, id)
    ensures Proper(w, DoBroadcast(w, id, txHash), id)
  {
  }

  lemma ConfirmIsProper(w: World, id: Id, hash: string)
    requires Before(w, id)
    ensures Proper(w, DoConfirm(w, id, hash), id)
  {
  }

  lemma FailIsProper(w: World, id: Id, reason: string)
    requires Before(w, id)
    ensures Proper(w, DoFail(w, id, reason), id)
  {
  }

  lemma ReorgIsProper(w: World, id: Id, ops: seq<string>)
    requires Before(w, id)
    ensures Proper(w, DoReorg(w, id, ops), id)
  {
  }

  lemma OtherStepIsProper(w: World, s: Step)
    requires Before(w, IdOf(s)) && (s.AddWallet? || s.SetWallet? || s.Track? || s.PruneStep? || s.OpenStep? || s.ListStep?)
    ensures Proper(w, Next(w, s), IdOf(s))
  {
  }

  lemma StepIsProper(w: World, s: Step)
    requires Before(w, IdOf(s))
    ensures Proper(w, Next(w, s), IdOf(s))
  {
    match s
    case DecideStep(id, v) => DecideIsProper(w, id, v);
    case ReserveStep(id, granted) => ReserveIsProper(w, id, granted);
    case FinishStep(id, o) => FinishIsProper(w, id, o);
    case BroadcastStep(id, txHash) => BroadcastIsProper(w, id, txHash);
    case ConfirmStep(id, hash) => ConfirmIsProper(w, id, hash);
    case FailStep(id, reason) => FailIsProper(w, id, reason);
    case ReorgStep(id, ops) => ReorgIsProper(w, id, ops);
    case _ => OtherStepIsProper(w, s);
  }

  // ----- the gateway -----

  /** Each transmission is the stored bytes of a withdrawal that has left the
      signed stage with a recorded signing, and none was sent twice. */
  ghost predicate SentOk(w: World) {
    && (forall i :: 0 <= i < |w.sent| ==>
          IsOut(w, w.sent[i].id) && w.sent[i].id in w.signings && w.sent[i].bytes == Row(w, w.sent[i].id).signedTx)
    && forall i, j :: 0 <= i < j < |w.sent| ==> w.sent[i].id != w.sent[j].id
  }

  ghost predicate Trusted(w: World) {
    Shape(w) && (forall id :: Sanctioned(w, id)) && (forall id :: Recorded(w, id)) && SentOk(w)
  }

  /** Everyone moves onward, the touched withdrawal and the others. */
  lemma AllOnward(w: World, s: Step, j: Id)
    requires Trusted(w)
    ensures Sanctioned(Next(w, s), j) && Recorded(Next(w, s), j) && Onward(w, Next(w, s), j)
  {
    var id := IdOf(s);
    assert CallOk(w, id) && RowOk(w, id) && Sanctioned(w, id) && Recorded(w, id);
    assert Sanctioned(w, j) && Recorded(w, j);
    StepIsProper(w, s);
    if j != id {
      StepIsLocal(w, s);
      ApprovalsStay(w, s);
    }
  }

  lemma ApprovalsStay(w: World, s: Step)
    ensures w.approved <= Next(w, s).approved
    ensures forall j :: j in Next(w, s).signings && j != IdOf(s) ==> j in w.signings
  {
  }

  lemma OutStaysOut(w: World, s: Step, id: Id)
    requires Trusted(w) && IsOut(w, id) && id in w.signings
    ensures IsOut(Next(w, s), id) && id in Next(w, s).signings && Row(Next(w, s), id).signedTx == Row(w, id).signedTx
  {
    AllOnward(w, s, id);
  }

  lemma StepKeepsSent(w: World, s: Step)
    requires Trusted(w)
    ensures SentOk(Next(w, s))
  {
    var w' := Next(w, s);
    forall i | 0 <= i < |w.sent|
      ensures IsOut(w', w.sent[i].id) && w.sent[i].id in w'.signings && w.sent[i].bytes == Row(w', w.sent[i].id).signedTx
    {
      OutStaysOut(w, s, w.sent[i].id);
    }
    if s.BroadcastStep? && Sendable(w.t, s.id) {
      assert Recorded(w, s.id);
      BroadcastSends(w, s.id, s.txHash);
    } else {
      assert w'.sent == w.sent;
    }
  }

  lemma BroadcastSends(w: World, id: Id, txHash: Option<string>)
    requires SentOk(w) && Sendable(w.t, id) && id in w.signings && id !in w.calls
    ensures var w' := DoBroadcast(w, id, txHash);
      && w'.sent == w.sent + [Transmission(id, Row(w, id).signedTx, txHash.Some?)]
      && IsOut(w', id) && id in w'.signings && Row(w', id).signedTx == Row(w, id).signedTx
      && forall i :: 0 <= i < |w.sent| ==> w.sent[i].id != id
  {
  }

  lemma StepKeepsTrust(w: World, s: Step)
    requires Trusted(w)
    ensures Trusted(Next(w, s))
  {
    StepKeepsShape(w, s);
    StepKeepsSent(w, s);
    forall j ensures Sanctioned(Next(w, s), j) && Recorded(Next(w, s), j) { AllOnward(w, s, j); }
  }

  lemma {:induction false} RunKeepsTrust(w: World, steps: seq<Step>)
    requires Trusted(w)
    ensures Trusted(Run(w, steps))
    decreases |steps|
  {
    if steps != [] {
      StepKeepsTrust(w, steps[0]);
      RunKeepsTrust(Next(w, steps[0]), steps[1..]);
    }
  }

  /** A running call of a failed withdrawal comes out well: policy approves, or the
      transaction is assembled. */
  predicate Revives(w: World, s: Step, id: Id) {
    || (s.DecideStep? && s.id == id && id in w.calls && w.calls[id].Deciding? && Approves(s.v))
    || (s.FinishStep? && s.id == id && id in w.calls && w.calls[id].Holding? && s.o.Assembled?)
  }

  lemma DecideRevivesIff(w: World, id: Id, v: Verdict)
    requires HasAccount(w.t, id) && Row(w, id).stage == Failed
    ensures id in DoDecide(w, id, v).t.withdrawals
    ensures Row(DoDecide(w, id, v), id).stage == Failed <==> !Revives(w, DecideStep(id, v), id)
  {
  }

  lemma ReserveRevivesNone(w: World, id: Id, granted: bool)
    requires HasAccount(w.t, id) && Row(w, id).stage == Failed
    ensures id in DoReserve(w, id, granted).t.withdrawals && Row(DoReserve(w, id, granted), id).stage == Failed
  {
    if Running(w, id) && w.calls[id].Choosing? {
      if IsEvm(AccountOf(w.t, id).1) {
      } else if AccountOf(w.t, id).1 == Bitcoin && CanTake(w.t.utxos, w.calls[id].wanted) {
      }
    }
  }

  lemma FinishRevivesIff(w: World, id: Id, o: Outcome)
    requires HasAccount(w.t, id) && Row(w, id).stage == Failed
    ensures id in DoFinish(w, id, o).t.withdrawals
    ensures Row(DoFinish(w, id, o), id).stage == Failed <==> !Revives(w, FinishStep(id, o), id)
  {
  }

  lemma RestRevivesNone(w: World, s: Step)
    requires HasAccount(w.t, IdOf(s)) && Row(w, IdOf(s)).stage == Failed
    requires !s.DecideStep? && !s.ReserveStep? && !s.FinishStep?
    ensures IdOf(s) in Next(w, s).t.withdrawals && Row(Next(w, s), IdOf(s)).stage == Failed
  {
    if !s.FailStep? {
      assert Next(w, s).t.withdrawals == w.t.withdrawals;
    }
  }

  lemma OwnStepRevivesIff(w: World, s: Step)
    requires HasAccount(w.t, IdOf(s)) && Row(w, IdOf(s)).stage == Failed
    ensures IdOf(s) in Next(w, s).t.withdrawals
    ensures Row(Next(w, s), IdOf(s)).stage == Failed <==> !Revives(w, s, IdOf(s))
  {
    if s.DecideStep? {
      DecideRevivesIff(w, s.id, s.v);
    } else if s.ReserveStep? {
      ReserveRevivesNone(w, s.id, s.granted);
    } else if s.FinishStep? {
      FinishRevivesIff(w, s.id, s.o);
    } else {
      RestRevivesNone(w, s);
    }
  }

  /** One step overwrites FAILED exactly when it revives. */
  lemma FailedStaysIff(w: World, s: Step, id: Id)
    requires Shape(w) && id in w.t.withdrawals && Row(w, id).stage == Failed
    ensures id in Next(w, s).t.withdrawals
    ensures Row(Next(w, s), id).stage == Failed <==> !Revives(w, s, id)
  {
    assert CallOk(w, IdOf(s)) && RowOk(w, IdOf(s)) && RowOk(w, id);
    if id == IdOf(s) {
      OwnStepRevivesIff(w, s);
    } else {
      StepIsLocal(w, s);
    }
  }

  /** Failed without a running call is absorbing over any further run. */
  lemma {:induction false} FailedIsFinal(w: World, steps: seq<Step>, id: Id)
    requires Trusted(w) && id in w.t.withdrawals && Row(w, id).stage == Failed && id !in w.calls
    ensures id in Run(w, steps).t.withdrawals && Row(Run(w, steps), id).stage == Failed
    decreases |steps|
  {
    if steps != [] {
      StepKeepsTrust(w, steps[0]);
      AllOnward(w, steps[0], id);
      FailedIsFinal(Next(w, steps[0]), steps[1..], id);
    }
  }

  /** A withdrawal is marked approved only by a policy answer that approves it. */
  lemma {:induction false} ApprovalWasGiven(w: World, steps: seq<Step>, id: Id) returns (i: nat)
    requires id in Run(w, steps).approved && id !in w.approved
    ensures i < |steps| && steps[i].DecideStep? && steps[i].id == id && Approves(steps[i].v)
    decreases |steps|
  {
    if id in Next(w, steps[0]).approved {
      i := 0;
    } else {
      var j := ApprovalWasGiven(Next(w, steps[0]), steps[1..], id);
      i := j + 1;
    }
  }

  /** In every run at all: a signed, broadcast or confirmed withdrawal was approved
      and has a recorded signing; the gateway got only the stored bytes of
      withdrawals with one, and no withdrawal twice. */
  lemma OnlyApprovedBytesLeave(steps: seq<Step>)
    ensures var w := Run(START, steps);
      && (forall id :: id in w.t.withdrawals && Row(w, id).stage in {Signed, Broadcast, Confirmed} ==>
            id in w.approved && id in w.signings)
      && SentOk(w)
  {
    RunKeepsTrust(START, steps);
    var w := Run(START, steps);
    forall id | id in w.t.withdrawals && Row(w, id).stage in {Signed, Broadcast, Confirmed}
      ensures id in w.approved && id in w.signings
    {
      assert Sanctioned(w, id) && Recorded(w, id);
    }
  }
}
