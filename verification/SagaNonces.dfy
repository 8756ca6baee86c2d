/** No nonce backs two withdrawals of one wallet. */
module SagaNonces {
  import opened Text
  import opened Records
  import opened Withdrawals
  import opened Saga
  import opened SagaOutpoints

  /** `id` holds nonce `n` of account `k`. */
  predicate HasNonce(w: World, id: Id, k: NonceKey, n: int) {
    Holds(w, id) && HasAccount(w.t, id) && AccountOf(w.t, id) == k && Row(w, id).nonce == Some(n)
  }

  function PendingOf(w: World, k: NonceKey): int { NonceAt(w.t.nonces, k).pending }

  /** Counters exist for EVM accounts only and never run below zero. */
  predicate CountersOk(w: World) {
    forall k :: k in w.t.nonces ==> IsEvm(k.1) && w.t.nonces[k].pending >= 0
  }

  ghost predicate Below(w: World, id: Id) {
    forall k, n :: HasNonce(w, id, k, n) ==> 0 <= n < PendingOf(w, k)
  }

  ghost predicate Distinct(w: World) {
    forall i, j, k, n :: HasNonce(w, i, k, n) && HasNonce(w, j, k, n) ==> i == j
  }

  ghost predicate Ordered(w: World) {
    Shape(w) && CountersOk(w) && (forall id :: Below(w, id)) && Distinct(w)
  }

  /** Nobody but `id` holds nonce `n` of the account. */
  ghost predicate OnlyHolder(w: World, id: Id, k: NonceKey, n: int) {
    forall j :: j != id ==> !HasNonce(w, j, k, n)
  }

  /** A counter moves up, or back by one past a nonce nobody else holds. */
  ghost predicate CountersMove(w: World, w': World, id: Id) {
    forall k :: PendingOf(w', k) >= PendingOf(w, k)
      || (PendingOf(w', k) == PendingOf(w, k) - 1 && OnlyHolder(w, id, k, PendingOf(w', k)))
  }

  /** `id` comes to hold only the nonce it held or one not yet reserved. */
  ghost predicate TakesNew(w: World, w': World, id: Id) {
    forall k, n :: HasNonce(w', id, k, n) ==> n < PendingOf(w', k) && (HasNonce(w, id, k, n) || n == PendingOf(w, k))
  }

  lemma OrderedFromOne(w: World, w': World, id: Id)
    requires Ordered(w) && Shape(w') && CountersOk(w') && Local(w, w', id)
    requires CountersMove(w, w', id) && TakesNew(w, w', id)
    ensures Ordered(w')
  {
    forall j, k, n | j != id && HasNonce(w', j, k, n) ensures HasNonce(w, j, k, n) && 0 <= n < PendingOf(w', k) {
      assert CallOk(w, j) && RowOk(w, j) && Below(w, j);
      assert HasNonce(w, j, k, n);
    }
    assert Below(w, id);
    forall j ensures Below(w', j) {
      if j == id {
        forall k, n | HasNonce(w', j, k, n) ensures 0 <= n < PendingOf(w', k) {
          assert HasNonce(w, id, k, n) || n == PendingOf(w, k);
        }
      }
    }
    forall i, j, k, n | HasNonce(w', i, k, n) && HasNonce(w', j, k, n) ensures i == j {
      if i != id { assert Below(w, i); }
      if j != id { assert Below(w, j); }
    }
  }

  /** What a step with an id must do about counters. */
  ghost predicate MovesOn(w: World, w': World, id: Id) {
    CountersOk(w') && CountersMove(w, w', id) && TakesNew(w, w', id)
  }

  /** The failed selection's rollback of nonce -1 meets no counter. */
  lemma BitcoinRollbackIsIdle(w: World, k: NonceKey)
    requires CountersOk(w) && k.1 == Bitcoin
    ensures RollbackPending(w.t.nonces, k, -1) == w.t.nonces
  {
  }

  lemma ReserveMovesOn(w: World, id: Id, granted: bool)
    requires CountersOk(w) && Below(w, id) && CallOk(w, id) && RowOk(w, id)
    ensures MovesOn(w, DoReserve(w, id, granted), id)
  {
  }

  /** Rolling back what `id` holds, with `id` no longer holding it. */
  lemma RollbackMoves(w: World, w': World, id: Id, k: NonceKey, h: Hold)
    requires CountersOk(w) && !Holds(w', id) && w'.t.nonces == RolledBack(w.t, k, h).nonces
    requires h.nonce >= 0 && PendingOf(w, k) == h.nonce + 1 ==> OnlyHolder(w, id, k, h.nonce)
    ensures MovesOn(w, w', id)
  {
  }

  /** With the counters left alone, `id` may only keep or drop what it holds. */
  lemma IdleMoves(w: World, w': World, id: Id)
    requires CountersOk(w) && Below(w, id) && Idle(w, w', id)
    ensures MovesOn(w, w', id)
  {
  }

  lemma FinishMovesOn(w: World, id: Id, o: Outcome)
    requires Ordered(w)
    ensures MovesOn(w, DoFinish(w, id, o), id)
  {
    var w' := DoFinish(w, id, o);
    assert Below(w, id) && CallOk(w, id) && RowOk(w, id);
    if !CanFinish(w, id) || o.Assembled? {
      IdleMoves(w, w', id);
    } else {
      var k, h := AccountOf(w.t, id), w.calls[id].hold;
      assert IsEvm(k.1) ==> HasNonce(w, id, k, h.nonce);
      RollbackMoves(w, w', id, k, h);
    }
  }

  lemma RefusalMovesOn(w: World, id: Id)
    requires Ordered(w)
    ensures MovesOn(w, DoBroadcast(w, id, None), id)
  {
    var w' := DoBroadcast(w, id, None);
    assert Below(w, id) && CallOk(w, id) && RowOk(w, id);
    if !Sendable(w.t, id) {
      IdleMoves(w, w', id);
    } else {
      var k, h := AccountOf(w.t, id), HoldOn(Row(w, id));
      assert Row(w, id).nonce.Some? ==> HasNonce(w, id, k, h.nonce);
      RollbackMoves(w, w', id, k, h);
    }
  }

  lemma AcceptanceMovesOn(w: World, id: Id, hash: string)
    requires Ordered(w)
    ensures MovesOn(w, DoBroadcast(w, id, Some(hash)), id)
  {
    var w' := DoBroadcast(w, id, Some(hash));
    assert Below(w, id) && CallOk(w, id) && RowOk(w, id);
    if !Sendable(w.t, id) {
      IdleMoves(w, w', id);
    } else {
      assert forall k :: PendingOf(w', k) == PendingOf(w, k);
      assert forall k, n :: HasNonce(w', id, k, n) ==> HasNonce(w, id, k, n);
    }
  }

  /** `j` still holds what it holds when `id` is failed: it is another withdrawal,
      or its own call is running. */
  predicate Survives(w: World, id: Id, j: Id) { j != id || CanFinish(w, id) }

  /** Failing `id` gives back a nonce that somebody still holds. */
  ghost predicate StealsNonce(w: World, id: Id) {
    && HasAccount(w.t, id) && Row(w, id).nonce.Some?
    && PendingOf(w, AccountOf(w.t, id)) == Row(w, id).nonce.value + 1
    && exists j :: Survives(w, id, j) && HasNonce(w, j, AccountOf(w.t, id), Row(w, id).nonce.value)
  }

  lemma FailMovesOn(w: World, id: Id, reason: string)
    requires Ordered(w) && !StealsNonce(w, id)
    ensures MovesOn(w, DoFail(w, id, reason), id)
  {
    var w' := DoFail(w, id, reason);
    assert Below(w, id) && CallOk(w, id) && RowOk(w, id);
    if !HasAccount(w.t, id) {
      IdleMoves(w, w', id);
    } else if CanFinish(w, id) {
      var k := AccountOf(w.t, id);
      assert Row(w, id).nonce.Some? ==> HasNonce(w, id, k, Row(w, id).nonce.value);
      IdleMoves(w, w', id);
    } else {
      RollbackMoves(w, w', id, AccountOf(w.t, id), HoldOn(Row(w, id)).(ops := []));
    }
  }

  /** Counters untouched and no nonce handed out. */
  ghost predicate Idle(w: World, w': World, id: Id) {
    w'.t.nonces == w.t.nonces && forall k, n :: HasNonce(w', id, k, n) ==> HasNonce(w, id, k, n)
  }

  lemma DecideIsIdle(w: World, id: Id, v: Verdict)
    requires CallOk(w, id)
    ensures Idle(w, DoDecide(w, id, v), id)
  {
    if Approves(v) {
    }
  }

  lemma ReorgIsIdle(w: World, id: Id, ops: seq<string>)
    ensures Idle(w, DoReorg(w, id, ops), id)
  {
  }

  lemma OtherIsIdle(w: World, s: Step)
    requires CallOk(w, IdOf(s)) && RowOk(w, IdOf(s))
    requires !s.ReserveStep? && !s.FinishStep? && !s.BroadcastStep? && !s.FailStep?
    ensures Idle(w, Next(w, s), IdOf(s))
  {
    match s
    case AddWallet(_, _) =>
    case SetWallet(_, _) =>
    case Track(_, _) =>
    case PruneStep(_) =>
    case OpenStep(id, r) =>
    case DecideStep(id, v) => DecideIsIdle(w, id, v);
    case ListStep(id, wanted) =>
    case ConfirmStep(id, hash) =>
    case ReorgStep(id, ops) => ReorgIsIdle(w, id, ops);
  }

  lemma StepMovesOn(w: World, s: Step)
    requires Ordered(w) && (s.FailStep? ==> !StealsNonce(w, s.id))
    ensures MovesOn(w, Next(w, s), IdOf(s))
  {
    match s
    case ReserveStep(id, granted) =>
      assert Below(w, id) && CallOk(w, id) && RowOk(w, id);
      ReserveMovesOn(w, id, granted);
    case FinishStep(id, o) => FinishMovesOn(w, id, o);
    case BroadcastStep(id, txHash) =>
      if txHash.None? { RefusalMovesOn(w, id); } else { AcceptanceMovesOn(w, id, txHash.value); }
    case FailStep(id, reason) => FailMovesOn(w, id, reason);
    case _ =>
      assert Below(w, IdOf(s)) && CallOk(w, IdOf(s)) && RowOk(w, IdOf(s));
      OtherIsIdle(w, s);
      IdleMoves(w, Next(w, s), IdOf(s));
  }

  lemma StepKeepsOrdered(w: World, s: Step)
    requires Ordered(w) && (s.FailStep? ==> !StealsNonce(w, s.id))
    ensures Ordered(Next(w, s))
  {
    StepKeepsShape(w, s);
    StepMovesOn(w, s);
    OrderedFromOne(w, Next(w, s), IdOf(s));
  }

  /** `Fail` keeps the nonces in order exactly when it does not give back the
      latest nonce while somebody still holds it. */
  lemma FailKeepsOrderedIff(w: World, id: Id, reason: string)
    requires Ordered(w)
    ensures Ordered(DoFail(w, id, reason)) <==> !StealsNonce(w, id)
  {
    var w' := DoFail(w, id, reason);
    assert CallOk(w, id) && RowOk(w, id);
    FailIsLocal(w, id, reason);
    ShapeFromOne(w, w', id);
    if StealsNonce(w, id) {
      var k, n := AccountOf(w.t, id), Row(w, id).nonce.value;
      var j :| Survives(w, id, j) && HasNonce(w, j, k, n);
      assert Below(w, j);
      assert HasNonce(w', j, k, n) && PendingOf(w', k) == n;
      assert !Below(w', j);
    } else {
      FailMovesOn(w, id, reason);
      OrderedFromOne(w, w', id);
    }
  }

  /** A withdrawal that is signed or out can be failed; so can one without nonce. */
  lemma HoldersFailSafely(w: World, id: Id)
    requires Ordered(w)
    requires id in w.t.withdrawals ==> Row(w, id).stage in {Signed, Broadcast, Confirmed} || Row(w, id).nonce == None
    ensures !StealsNonce(w, id)
  {
    assert CallOk(w, id);
    if StealsNonce(w, id) {
      assert HasNonce(w, id, AccountOf(w.t, id), Row(w, id).nonce.value);
      assert false;
    }
  }

  /** While its own call holds a nonce, failing a withdrawal robs the call exactly
      when the nonce is the latest. */
  lemma RunningFailStealsIff(w: World, id: Id)
    requires Ordered(w) && CanFinish(w, id) && IsEvm(AccountOf(w.t, id).1)
    ensures StealsNonce(w, id) <==> PendingOf(w, AccountOf(w.t, id)) == w.calls[id].hold.nonce + 1
  {
    assert CallOk(w, id);
    assert HasNonce(w, id, AccountOf(w.t, id), w.calls[id].hold.nonce) && Survives(w, id, id);
  }

  /** Failing `id` leaves its nonce on offer, with `j` still holding it. */
  lemma StolenIsOnOffer(w: World, id: Id, j: Id, reason: string)
    requires Ordered(w) && StealsNonce(w, id)
    requires Survives(w, id, j) && HasNonce(w, j, AccountOf(w.t, id), Row(w, id).nonce.value)
    ensures var w' := DoFail(w, id, reason); var k, n := AccountOf(w.t, id), Row(w, id).nonce.value;
      && PendingOf(w', k) == n && HasNonce(w', j, k, n) && w'.calls == w.calls && w'.t.wallets == w.t.wallets
      && (forall x :: x != id && x in w.t.withdrawals ==> x in w'.t.withdrawals && Row(w', x) == Row(w, x))
  {
    assert RowOk(w, id) && Below(w, j);
  }

  /** Otherwise the next reservation hands the same nonce out again. */
  lemma StolenNonceIsReissued(w: World, id: Id, j: Id, x: Id, reason: string)
    requires Ordered(w) && StealsNonce(w, id)
    requires Survives(w, id, j) && HasNonce(w, j, AccountOf(w.t, id), Row(w, id).nonce.value)
    requires x != id && x != j && Running(w, x) && w.calls[x].Choosing? && AccountOf(w.t, x) == AccountOf(w.t, id)
    ensures var w' := DoReserve(DoFail(w, id, reason), x, true);
      var k, n := AccountOf(w.t, id), Row(w, id).nonce.value;
      HasNonce(w', j, k, n) && HasNonce(w', x, k, n)
  {
    assert CallOk(w, x) && RowOk(w, id);
    StolenIsOnOffer(w, id, j, reason);
  }

  /** Every `Fail` of the run is on a withdrawal it cannot rob another for. */
  ghost predicate Careful(w: World, steps: seq<Step>)
    decreases |steps|
  {
    steps != [] ==>
      && (steps[0].FailStep? ==> !StealsNonce(w, steps[0].id))
      && Careful(Next(w, steps[0]), steps[1..])
  }

  /** A `Fail` hits a signed withdrawal or nothing. */
  predicate FailsSigned(w: World, s: Step) {
    s.FailStep? && s.id in w.t.withdrawals ==> Row(w, s.id).stage == Signed
  }

  predicate FailsOnlySigned(w: World, steps: seq<Step>)
    decreases |steps|
  {
    steps != [] ==> FailsSigned(w, steps[0]) && FailsOnlySigned(Next(w, steps[0]), steps[1..])
  }

  /** Runs that fail only signed withdrawals are such runs. */
  lemma {:induction false} SignedIsCareful(w: World, steps: seq<Step>)
    requires Ordered(w) && FailsOnlySigned(w, steps)
    ensures Careful(w, steps)
    decreases |steps|
  {
    if steps != [] {
      if steps[0].FailStep? { HoldersFailSafely(w, steps[0].id); }
      StepKeepsOrdered(w, steps[0]);
      SignedIsCareful(Next(w, steps[0]), steps[1..]);
    }
  }

  lemma {:induction false} RunKeepsOrdered(w: World, steps: seq<Step>)
    requires Ordered(w) && Careful(w, steps)
    ensures Ordered(Run(w, steps))
    decreases |steps|
  {
    if steps != [] {
      StepKeepsOrdered(w, steps[0]);
      RunKeepsOrdered(Next(w, steps[0]), steps[1..]);
    }
  }

  /** In every run where no `Fail` robs anybody, two signed, broadcast or confirmed
      withdrawals or running calls of one account carry different nonces, each
      below the account's counter. */
  lemma NoncesAreUnique(steps: seq<Step>, i: Id, j: Id)
    requires Careful(START, steps)
    ensures var w := Run(START, steps);
      && CountersOk(w)
      && (i != j && Holds(w, i) && Holds(w, j) && Row(w, i).nonce.Some? && Row(w, j).nonce.Some? ==>
            && HasAccount(w.t, i) && HasAccount(w.t, j)
            && 0 <= Row(w, i).nonce.value < PendingOf(w, AccountOf(w.t, i))
            && (AccountOf(w.t, i) == AccountOf(w.t, j) ==> Row(w, i).nonce != Row(w, j).nonce))
  {
    RunKeepsOrdered(START, steps);
    var w := Run(START, steps);
    assert RowOk(w, i) && RowOk(w, j) && Below(w, i);
    if Holds(w, i) && Holds(w, j) && Row(w, i).nonce.Some? && Row(w, j).nonce.Some? {
      assert HasNonce(w, i, AccountOf(w.t, i), Row(w, i).nonce.value);
      assert HasNonce(w, j, AccountOf(w.t, j), Row(w, j).nonce.value);
    }
  }
}
