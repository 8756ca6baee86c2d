/** Locked coins belong to somebody, unless `Fail` hits a signed withdrawal: it
    gives back no coin, and a coin left behind stays locked. */
module SagaStranded {
  import opened Text
  import opened Records
  import opened Withdrawals
  import opened Saga
  import opened SagaOutpoints

  predicate IsLocked(w: World, op: string) { op in w.t.utxos && w.t.utxos[op].lock == Locked }

  ghost predicate Owned(w: World, op: string) { exists j :: Has(w, j, op) }

  ghost predicate AllOwned(w: World) { forall op :: IsLocked(w, op) ==> Owned(w, op) }

  /** `Fail` on a signed withdrawal with coins, or a new coin that comes in locked. */
  predicate Strands(w: World, s: Step) {
    || (s.FailStep? && s.id in w.t.withdrawals && Row(w, s.id).stage == Signed && Row(w, s.id).outpoints != [])
    || (s.Track? && s.op !in w.t.utxos && s.u.lock == Locked)
  }

  // ----- steps that leave nothing behind -----

  /** Whatever is locked afterwards is `id`'s, or was locked and not `id`'s. */
  ghost predicate LeavesNone(w: World, w': World, id: Id) {
    forall op :: IsLocked(w', op) ==> Has(w', id, op) || (IsLocked(w, op) && !Has(w, id, op))
  }

  lemma OwnedFromOne(w: World, w': World, id: Id)
    requires AllOwned(w) && Others(w, w', id) && LeavesNone(w, w', id)
    ensures AllOwned(w')
  {
    forall op | IsLocked(w', op) ensures Owned(w', op) {
      if !Has(w', id, op) {
        var j :| Has(w, j, op);
        OthersHold(w, w', id, j, op);
      }
    }
  }

  lemma ReserveLeavesNone(w: World, id: Id, granted: bool)
    requires CallOk(w, id) && RowOk(w, id)
    ensures LeavesNone(w, DoReserve(w, id, granted), id)
  {
    if Running(w, id) && w.calls[id].Choosing? && w.calls[id].wanted.Some? && AllFree(w.t.utxos, w.calls[id].wanted.value) {
      RelockAllAt(w.t.utxos, w.calls[id].wanted.value, Locked, None);
    }
  }

  lemma FinishLeavesNone(w: World, id: Id, o: Outcome)
    requires Guarded(w, id) && CallOk(w, id) && RowOk(w, id)
    ensures LeavesNone(w, DoFinish(w, id, o), id)
  {
    if CanFinish(w, id) {
      var ops := w.calls[id].hold.ops;
      assert forall op :: op in ops ==> Has(w, id, op);
      if !o.Assembled? {
        RelockAllAt(w.t.utxos, ops, Free, Some(""));
      }
    }
  }

  lemma RefusalLeavesNone(w: World, id: Id)
    requires Guarded(w, id) && CallOk(w, id) && RowOk(w, id)
    ensures LeavesNone(w, DoBroadcast(w, id, None), id)
  {
    if Sendable(w.t, id) {
      assert forall op :: op in Row(w, id).outpoints ==> Has(w, id, op);
      RelockAllAt(w.t.utxos, Row(w, id).outpoints, Free, Some(""));
    }
  }

  lemma AcceptanceLeavesNone(w: World, id: Id, hash: string)
    requires Guarded(w, id) && CallOk(w, id) && RowOk(w, id)
    ensures LeavesNone(w, DoBroadcast(w, id, Some(hash)), id)
  {
    if Sendable(w.t, id) {
      assert forall op :: op in Row(w, id).outpoints ==> Has(w, id, op);
      RelockAllAt(w.t.utxos, Row(w, id).outpoints, Spent, Some(hash));
    }
  }

  lemma FailLeavesNone(w: World, id: Id, reason: string)
    requires Guarded(w, id) && CallOk(w, id) && !Strands(w, FailStep(id, reason))
    ensures LeavesNone(w, DoFail(w, id, reason), id)
  {
  }

  lemma ReorgLeavesNone(w: World, id: Id, ops: seq<string>)
    ensures LeavesNone(w, DoReorg(w, id, ops), id)
  {
    if id in w.t.withdrawals {
      ReorgFrees(w, id, ops);
      ReorgSameHolders(w, id, ops, id);
    }
  }

  lemma DecideLeavesNone(w: World, id: Id, v: Verdict)
    requires CallOk(w, id)
    ensures LeavesNone(w, DoDecide(w, id, v), id)
  {
  }

  lemma CoinStepLeavesNone(w: World, s: Step)
    requires (s.Track? || s.PruneStep?) && !Strands(w, s)
    ensures LeavesNone(w, Next(w, s), "")
  {
  }

  lemma OtherStepLeavesNone(w: World, s: Step)
    requires CallOk(w, IdOf(s)) && (s.AddWallet? || s.SetWallet? || s.OpenStep? || s.ListStep? || s.ConfirmStep?)
    ensures LeavesNone(w, Next(w, s), IdOf(s))
  {
  }

  lemma StepLeavesNone(w: World, s: Step)
    requires Guarded(w, IdOf(s)) && CallOk(w, IdOf(s)) && RowOk(w, IdOf(s)) && !Strands(w, s)
    ensures LeavesNone(w, Next(w, s), IdOf(s))
  {
    match s
    case Track(_, _) => CoinStepLeavesNone(w, s);
    case PruneStep(_) => CoinStepLeavesNone(w, s);
    case DecideStep(id, v) => DecideLeavesNone(w, id, v);
    case ReserveStep(id, granted) => ReserveLeavesNone(w, id, granted);
    case FinishStep(id, o) => FinishLeavesNone(w, id, o);
    case BroadcastStep(id, txHash) =>
      if txHash.None? { RefusalLeavesNone(w, id); } else { AcceptanceLeavesNone(w, id, txHash.value); }
    case FailStep(id, reason) => FailLeavesNone(w, id, reason);
    case ReorgStep(id, ops) => ReorgLeavesNone(w, id, ops);
    case _ => OtherStepLeavesNone(w, s);
  }

  // ----- what is left behind -----

  /** Locked, and nobody's. */
  ghost predicate Stranded(w: World, op: string) { IsLocked(w, op) && !Owned(w, op) }

  /** Failing a signed withdrawal leaves each of its coins behind. */
  lemma FailStrandsAll(w: World, id: Id, reason: string, op: string)
    requires Sound(w) && id in w.t.withdrawals && Row(w, id).stage == Signed && op in Row(w, id).outpoints
    ensures Stranded(DoFail(w, id, reason), op)
  {
    var w' := DoFail(w, id, reason);
    assert Has(w, id, op) && Guarded(w, id) && CallOk(w, id) && RowOk(w, id);
    FailIsLocal(w, id, reason);
    forall j ensures !Has(w', j, op) {
      if j != id { OthersHold(w, w', id, j, op); }
    }
  }

  lemma TrackStrands(w: World, op: string, u: Utxo)
    requires Sound(w) && op !in w.t.utxos && u.lock == Locked
    ensures Stranded(Next(w, Track(op, u)), op)
  {
    var w' := Next(w, Track(op, u));
    forall j ensures !Has(w', j, op) {
      assert Guarded(w, j);
      assert Has(w', j, op) <==> Has(w, j, op);
    }
  }

  /** A step leaves no locked coin behind if and only if it does not fail a signed
      withdrawal with coins and brings no locked coin in. */
  lemma StepKeepsOwnedIff(w: World, s: Step)
    requires Sound(w) && AllOwned(w)
    ensures AllOwned(Next(w, s)) <==> !Strands(w, s)
  {
    var id := IdOf(s);
    assert Guarded(w, id) && CallOk(w, id) && RowOk(w, id);
    if !Strands(w, s) {
      StepIsLocal(w, s);
      StepLeavesNone(w, s);
      OwnedFromOne(w, Next(w, s), id);
    } else if s.Track? {
      TrackStrands(w, s.op, s.u);
    } else {
      FailStrandsAll(w, s.id, s.reason, Row(w, s.id).outpoints[0]);
    }
  }

  /** No step of the run takes a held coin away or leaves one behind. */
  ghost predicate KeptRun(w: World, steps: seq<Step>)
    decreases |steps|
  {
    steps != [] ==> Steady(w, steps[0]) && !Strands(w, steps[0]) && KeptRun(Next(w, steps[0]), steps[1..])
  }

  lemma {:induction false} RunKeepsOwned(w: World, steps: seq<Step>)
    requires Sound(w) && AllOwned(w) && KeptRun(w, steps)
    ensures Sound(Run(w, steps)) && AllOwned(Run(w, steps))
    decreases |steps|
  {
    if steps != [] {
      StepKeepsSoundIff(w, steps[0]);
      StepKeepsOwnedIff(w, steps[0]);
      RunKeepsOwned(Next(w, steps[0]), steps[1..]);
    }
  }

  /** In every such run each locked coin belongs to exactly one withdrawal, which
      is signed or has a call running that reserved the coin. */
  lemma LockedHasOneOwner(steps: seq<Step>, op: string) returns (id: Id)
    requires KeptRun(START, steps) && IsLocked(Run(START, steps), op)
    ensures var w := Run(START, steps);
      && Has(w, id, op) && (Row(w, id).stage == Signed || CanFinish(w, id))
      && forall j :: Has(w, j, op) ==> j == id
  {
    RunKeepsOwned(START, steps);
    var w := Run(START, steps);
    assert Owned(w, op);
    id :| Has(w, id, op);
    assert Guarded(w, id) && CallOk(w, id);
  }

  // ----- a coin left behind stays behind -----

  /** The coin stays locked, and `id` does not come to hold it. */
  predicate Ignores(w': World, id: Id, op: string) { IsLocked(w', op) && !Has(w', id, op) }

  lemma ReserveIgnores(w: World, id: Id, granted: bool, op: string)
    requires CallOk(w, id) && RowOk(w, id) && Ignores(w, id, op)
    ensures Ignores(DoReserve(w, id, granted), id, op)
  {
    if Running(w, id) && w.calls[id].Choosing? && w.calls[id].wanted.Some? && AllFree(w.t.utxos, w.calls[id].wanted.value) {
      RelockAllKeeps(w.t.utxos, w.calls[id].wanted.value, Locked, None);
    }
  }

  lemma FinishIgnores(w: World, id: Id, o: Outcome, op: string)
    requires CallOk(w, id) && RowOk(w, id) && Ignores(w, id, op)
    ensures Ignores(DoFinish(w, id, o), id, op)
  {
    if CanFinish(w, id) {
      RelockAllKeeps(w.t.utxos, w.calls[id].hold.ops, Free, Some(""));
    }
  }

  lemma BroadcastIgnores(w: World, id: Id, txHash: Option<string>, op: string)
    requires CallOk(w, id) && RowOk(w, id) && Ignores(w, id, op)
    ensures Ignores(DoBroadcast(w, id, txHash), id, op)
  {
    if Sendable(w.t, id) {
      assert op !in Row(w, id).outpoints;
      RelockAllKeeps(w.t.utxos, Row(w, id).outpoints, Free, Some(""));
      if txHash.Some? {
        RelockAllKeeps(w.t.utxos, Row(w, id).outpoints, Spent, txHash);
      }
    }
  }

  lemma ReorgIgnores(w: World, id: Id, ops: seq<string>, op: string)
    requires Ignores(w, id, op) && op !in Takes(w, ReorgStep(id, ops))
    ensures Ignores(DoReorg(w, id, ops), id, op)
  {
    if id in w.t.withdrawals {
      ReorgFrees(w, id, ops);
      ReorgSameHolders(w, id, ops, id);
    }
  }

  lemma DecideIgnores(w: World, id: Id, v: Verdict, op: string)
    requires CallOk(w, id) && Ignores(w, id, op)
    ensures Ignores(DoDecide(w, id, v), id, op)
  {
  }

  lemma OtherStepIgnores(w: World, s: Step, op: string)
    requires CallOk(w, IdOf(s)) && Ignores(w, IdOf(s), op) && op !in Takes(w, s)
    requires !s.DecideStep? && !s.ReserveStep? && !s.FinishStep? && !s.BroadcastStep? && !s.ReorgStep?
    ensures Ignores(Next(w, s), IdOf(s), op)
  {
  }

  lemma StepIgnores(w: World, s: Step, op: string)
    requires CallOk(w, IdOf(s)) && RowOk(w, IdOf(s)) && Ignores(w, IdOf(s), op) && op !in Takes(w, s)
    ensures Ignores(Next(w, s), IdOf(s), op)
  {
    match s
    case DecideStep(id, v) => DecideIgnores(w, id, v, op);
    case ReserveStep(id, granted) => ReserveIgnores(w, id, granted, op);
    case FinishStep(id, o) => FinishIgnores(w, id, o, op);
    case BroadcastStep(id, txHash) => BroadcastIgnores(w, id, txHash, op);
    case ReorgStep(id, ops) => ReorgIgnores(w, id, ops, op);
    case _ => OtherStepIgnores(w, s, op);
  }

  /** A coin left behind stays so if and only if the step does not free it in a
      reorganisation and does not delete it. */
  lemma StrandedStaysIff(w: World, s: Step, op: string)
    requires Shape(w) && Stranded(w, op)
    ensures Stranded(Next(w, s), op) <==> op !in Takes(w, s)
  {
    var id, w' := IdOf(s), Next(w, s);
    assert CallOk(w, id) && RowOk(w, id);
    if op !in Takes(w, s) {
      StepIgnores(w, s, op);
      StepIsLocal(w, s);
      forall j ensures !Has(w', j, op) {
        if j != id { OthersHold(w, w', id, j, op); }
      }
    } else if s.ReorgStep? {
      ReorgFrees(w, s.id, s.ops);
    }
  }

  ghost predicate LeftAlone(w: World, steps: seq<Step>, op: string)
    decreases |steps|
  {
    steps != [] ==> op !in Takes(w, steps[0]) && LeftAlone(Next(w, steps[0]), steps[1..], op)
  }

  /** So it stays locked and nobody's in every continuation that does neither. */
  lemma {:induction false} StrandedForever(w: World, steps: seq<Step>, op: string)
    requires Shape(w) && Stranded(w, op) && LeftAlone(w, steps, op)
    ensures Stranded(Run(w, steps), op)
    decreases |steps|
  {
    if steps != [] {
      StepKeepsShape(w, steps[0]);
      StrandedStaysIff(w, steps[0], op);
      StrandedForever(Next(w, steps[0]), steps[1..], op);
    }
  }
}
