/** No coin backs two withdrawals. */
module SagaOutpoints {
  import opened Text
  import opened Records
  import opened Withdrawals
  import opened Saga

  /** Signed, broadcast or confirmed, or reserved by a running call. */
  predicate Holds(w: World, id: Id) {
    && id in w.t.withdrawals
    && (Row(w, id).stage in {Signed, Broadcast, Confirmed} || (id in w.calls && w.calls[id].Holding?))
  }

  /** A coin is locked until the transaction that spends it is out. */
  function LockFor(stage: Stage): LockState { if stage in {Broadcast, Confirmed} then Spent else Locked }

  predicate Has(w: World, id: Id, op: string) { Holds(w, id) && op in Row(w, id).outpoints }

  ghost predicate Guarded(w: World, id: Id) {
    forall op :: Has(w, id, op) ==> op in w.t.utxos && w.t.utxos[op].lock == LockFor(Row(w, id).stage)
  }

  ghost predicate Apart(w: World) {
    forall i, j, op :: Has(w, i, op) && Has(w, j, op) ==> i == j
  }

  ghost predicate Sound(w: World) {
    Shape(w) && (forall id :: Guarded(w, id)) && Apart(w)
  }

  /** Coins stay; only a free coin or one that `id` holds changes its label. */
  ghost predicate OnlyOwn(w: World, w': World, id: Id) {
    forall op :: op in w.t.utxos ==>
      && op in w'.t.utxos
      && (w'.t.utxos[op].lock == w.t.utxos[op].lock || w.t.utxos[op].lock == Free || Has(w, id, op))
  }

  /** `id` comes to hold only coins it held before or free ones. */
  ghost predicate TakesFree(w: World, w': World, id: Id) {
    forall op :: Has(w', id, op) ==> Has(w, id, op) || (op in w.t.utxos && w.t.utxos[op].lock == Free)
  }

  lemma OthersHold(w: World, w': World, id: Id, j: Id, op: string)
    requires Others(w, w', id) && j != id
    ensures Has(w', j, op) <==> Has(w, j, op)
    ensures Has(w, j, op) ==> Row(w', j) == Row(w, j)
  {
  }

  lemma SoundFromOne(w: World, w': World, id: Id)
    requires Sound(w) && Shape(w') && Others(w, w', id)
    requires OnlyOwn(w, w', id) && TakesFree(w, w', id) && Guarded(w', id)
    ensures Sound(w')
  {
    forall j, op | j != id && Has(w', j, op)
      ensures Has(w, j, op) && !Has(w', id, op)
      ensures op in w'.t.utxos && w'.t.utxos[op].lock == LockFor(Row(w', j).stage)
    {
      OthersHold(w, w', id, j, op);
      assert Guarded(w, j);
      assert !Has(w, id, op);
      assert w.t.utxos[op].lock != Free;
    }
    forall i, j, op | Has(w', i, op) && Has(w', j, op) ensures i == j {
      assert i != id && j != id ==> Has(w, i, op) && Has(w, j, op);
    }
  }

  /** What a step with an id must do about coins. */
  ghost predicate Moves(w: World, w': World, id: Id) {
    OnlyOwn(w, w', id) && TakesFree(w, w', id) && Guarded(w', id)
  }

  lemma ReserveMoves(w: World, id: Id, granted: bool)
    requires Guarded(w, id) && CallOk(w, id) && RowOk(w, id)
    ensures Moves(w, DoReserve(w, id, granted), id)
  {
    if Running(w, id) && w.calls[id].Choosing? && w.calls[id].wanted.Some? && AllFree(w.t.utxos, w.calls[id].wanted.value) {
      RelockAllAt(w.t.utxos, w.calls[id].wanted.value, Locked, None);
    }
  }

  /** Freeing what `id` holds, with `id` no longer holding it. */
  lemma LettingGoMoves(w: World, w': World, id: Id, ops: seq<string>)
    requires Guarded(w, id) && Holds(w, id) && Row(w, id).outpoints == ops && !Holds(w', id)
    requires w'.t.utxos == RelockAll(w.t.utxos, ops, Free, Some(""))
    ensures Moves(w, w', id)
  {
    assert forall op :: op in ops ==> Has(w, id, op);
    RelockAllAt(w.t.utxos, ops, Free, Some(""));
  }

  lemma FinishMoves(w: World, id: Id, o: Outcome)
    requires Guarded(w, id) && CallOk(w, id) && RowOk(w, id)
    ensures Moves(w, DoFinish(w, id, o), id)
  {
    if CanFinish(w, id) && !o.Assembled? {
      GivingUpMoves(w, id, o);
    }
  }

  lemma GivingUpMoves(w: World, id: Id, o: Outcome)
    requires Guarded(w, id) && CallOk(w, id) && RowOk(w, id) && CanFinish(w, id) && !o.Assembled?
    ensures Moves(w, DoFinish(w, id, o), id)
  {
    LettingGoMoves(w, DoFinish(w, id, o), id, w.calls[id].hold.ops);
  }

  lemma RefusalMoves(w: World, id: Id)
    requires Guarded(w, id) && CallOk(w, id) && RowOk(w, id)
    ensures Moves(w, DoBroadcast(w, id, None), id)
  {
    if Sendable(w.t, id) {
      LettingGoMoves(w, DoBroadcast(w, id, None), id, Row(w, id).outpoints);
    }
  }

  lemma AcceptanceMoves(w: World, id: Id, hash: string)
    requires Guarded(w, id) && CallOk(w, id) && RowOk(w, id)
    ensures Moves(w, DoBroadcast(w, id, Some(hash)), id)
  {
    if Sendable(w.t, id) {
      assert forall op :: op in Row(w, id).outpoints ==> Has(w, id, op);
      RelockAllAt(w.t.utxos, Row(w, id).outpoints, Spent, Some(hash));
    }
  }

  lemma DecideMoves(w: World, id: Id, v: Verdict)
    requires Guarded(w, id) && CallOk(w, id)
    ensures Moves(w, DoDecide(w, id, v), id)
  {
  }

  // ----- freeing and deleting coins -----

  /** The coins a reorganisation or a pruning step takes away: a reorganisation
      gets as far as the first unknown outpoint. */
  function Takes(w: World, s: Step): seq<string> {
    if s.PruneStep? then s.ops
    else if s.ReorgStep? && s.id in w.t.withdrawals then KnownPart(w.t.utxos.Keys, s.ops)
    else []
  }

  /** No coin that somebody holds is taken away. */
  ghost predicate Steady(w: World, s: Step) {
    forall j, op :: op in Takes(w, s) ==> !Has(w, j, op)
  }

  lemma ReorgFrees(w: World, id: Id, ops: seq<string>)
    requires id in w.t.withdrawals
    ensures var w' := DoReorg(w, id, ops); var part := KnownPart(w.t.utxos.Keys, ops);
      && w'.t.utxos.Keys == w.t.utxos.Keys
      && (forall op :: op in w.t.utxos ==> w'.t.utxos[op].lock == if op in part then Free else w.t.utxos[op].lock)
  {
    RelockKnownPart(w.t.utxos, ops, Free, Some(""));
    RelockAllAt(w.t.utxos, KnownPart(w.t.utxos.Keys, ops), Free, Some(""));
  }

  lemma ReorgSameHolders(w: World, id: Id, ops: seq<string>, j: Id)
    ensures var w' := DoReorg(w, id, ops);
      && (forall op :: Has(w, j, op) <==> Has(w', j, op))
      && (Holds(w, j) ==> j in w'.t.withdrawals && LockFor(Row(w', j).stage) == LockFor(Row(w, j).stage))
  {
  }

  /** A reorganisation, naming any outpoints, keeps every promise exactly when
      none of the coins it gets to free is held. */
  lemma ReorgKeepsSoundIff(w: World, id: Id, ops: seq<string>)
    requires Sound(w) && id in w.t.withdrawals
    ensures Sound(DoReorg(w, id, ops)) <==> forall j, op :: op in KnownPart(w.t.utxos.Keys, ops) ==> !Has(w, j, op)
  {
    var w', part := DoReorg(w, id, ops), KnownPart(w.t.utxos.Keys, ops);
    assert CallOk(w, id) && RowOk(w, id);
    ReorgIsLocal(w, id, ops);
    ShapeFromOne(w, w', id);
    ReorgFrees(w, id, ops);
    forall j, op ensures Has(w, j, op) <==> Has(w', j, op) { ReorgSameHolders(w, id, ops, j); }
    if j, op :| op in part && Has(w, j, op) {
      ReorgSameHolders(w, id, ops, j);
      assert !Guarded(w', j);
    } else {
      forall j ensures Guarded(w', j) {
        assert Guarded(w, j);
        ReorgSameHolders(w, id, ops, j);
      }
    }
  }

  /** Pruning keeps it exactly when no promised coin is forgotten. */
  lemma PruneKeepsSoundIff(w: World, ops: seq<string>)
    requires Sound(w)
    ensures Sound(Next(w, PruneStep(ops))) <==> forall j, op :: op in ops ==> !Has(w, j, op)
  {
    var w' := Next(w, PruneStep(ops));
    StepKeepsShape(w, PruneStep(ops));
    assert forall j, op :: Has(w, j, op) <==> Has(w', j, op);
    if j, op :| op in ops && Has(w, j, op) {
      assert !Guarded(w', j);
    } else {
      forall j ensures Guarded(w', j) { assert Guarded(w, j); }
    }
  }

  // ----- steps and runs -----

  lemma StepMoves(w: World, s: Step)
    requires !s.ReorgStep? && !s.PruneStep? && Guarded(w, IdOf(s)) && CallOk(w, IdOf(s)) && RowOk(w, IdOf(s))
    ensures Moves(w, Next(w, s), IdOf(s))
  {
    match s
    case DecideStep(id, v) => DecideMoves(w, id, v);
    case ReserveStep(id, granted) => ReserveMoves(w, id, granted);
    case FinishStep(id, o) => FinishMoves(w, id, o);
    case BroadcastStep(id, txHash) =>
      if txHash.None? { RefusalMoves(w, id); } else { AcceptanceMoves(w, id, txHash.value); }
    case ConfirmStep(id, hash) => ConfirmMoves(w, id, hash);
    case FailStep(id, reason) => FailMoves(w, id, reason);
    case _ => PlainMoves(w, s);
  }

  lemma PlainMoves(w: World, s: Step)
    requires s.AddWallet? || s.SetWallet? || s.Track? || s.OpenStep? || s.ListStep?
    requires Guarded(w, IdOf(s)) && CallOk(w, IdOf(s))
    ensures Moves(w, Next(w, s), IdOf(s))
  {
  }

  lemma ConfirmMoves(w: World, id: Id, hash: string)
    requires Guarded(w, id)
    ensures Moves(w, DoConfirm(w, id, hash), id)
  {
  }

  lemma FailMoves(w: World, id: Id, reason: string)
    requires Guarded(w, id) && CallOk(w, id)
    ensures Moves(w, DoFail(w, id, reason), id)
  {
  }

  /** Every step keeps the coins apart and correctly labelled if and only if it
      takes away no coin that is held. */
  lemma StepKeepsSoundIff(w: World, s: Step)
    requires Sound(w)
    ensures Sound(Next(w, s)) <==> Steady(w, s)
  {
    if s.PruneStep? {
      PruneKeepsSoundIff(w, s.ops);
    } else if s.ReorgStep? {
      if s.id in w.t.withdrawals {
        ReorgKeepsSoundIff(w, s.id, s.ops);
      }
    } else {
      StepKeepsShape(w, s);
      assert Guarded(w, IdOf(s)) && CallOk(w, IdOf(s)) && RowOk(w, IdOf(s));
      StepMoves(w, s);
      SoundFromOne(w, Next(w, s), IdOf(s));
    }
  }

  ghost predicate SteadyRun(w: World, steps: seq<Step>)
    decreases |steps|
  {
    steps != [] ==> Steady(w, steps[0]) && SteadyRun(Next(w, steps[0]), steps[1..])
  }

  lemma {:induction false} RunKeepsSound(w: World, steps: seq<Step>)
    requires Sound(w) && SteadyRun(w, steps)
    ensures Sound(Run(w, steps))
    decreases |steps|
  {
    if steps != [] {
      StepKeepsSoundIff(w, steps[0]);
      RunKeepsSound(Next(w, steps[0]), steps[1..]);
    }
  }

  /** Runs without reorganisation and pruning are steady. */
  lemma {:induction false} CalmIsSteady(w: World, steps: seq<Step>)
    requires forall s :: s in steps ==> !s.ReorgStep? && !s.PruneStep?
    ensures SteadyRun(w, steps)
    decreases |steps|
  {
    if steps != [] {
      CalmIsSteady(Next(w, steps[0]), steps[1..]);
    }
  }

  /** In every run that takes no held coin away, whatever interleaves and whoever
      fails: no outpoint is promised twice, and each promised outpoint is locked
      while its withdrawal is signed and spent once it is out. */
  lemma NoDoubleSpend(steps: seq<Step>, i: Id, op: string)
    requires SteadyRun(START, steps)
    ensures var w := Run(START, steps);
      i in w.t.withdrawals && Row(w, i).stage in {Signed, Broadcast, Confirmed} && op in Row(w, i).outpoints ==>
        && op in w.t.utxos
        && w.t.utxos[op].lock == (if Row(w, i).stage == Signed then Locked else Spent)
        && forall j :: j != i && j in w.t.withdrawals && Row(w, j).stage in {Signed, Broadcast, Confirmed} ==>
             op !in Row(w, j).outpoints
  {
    RunKeepsSound(START, steps);
    var w := Run(START, steps);
    assert Guarded(w, i);
    if i in w.t.withdrawals && Row(w, i).stage in {Signed, Broadcast, Confirmed} && op in Row(w, i).outpoints {
      assert Has(w, i, op);
      forall j | j != i && j in w.t.withdrawals && Row(w, j).stage in {Signed, Broadcast, Confirmed}
        ensures op !in Row(w, j).outpoints
      {
        assert !Has(w, j, op);
      }
    }
  }
}
