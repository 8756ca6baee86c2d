/** What the gateway took: accepted transmissions of one account never share a
    nonce, and the broadcast counter is one more than the largest nonce out. */
module SagaAccepted {
  import opened Text
  import opened Records
  import opened Withdrawals
  import opened Saga
  import opened SagaNonces
  import opened SagaCommits
  import opened SagaPayments

  /** The gateway took transmission `i`, and it carries nonce `n` of account `k`. */
  predicate Spends(w: World, i: int, k: NonceKey, n: int) {
    && 0 <= i < |w.sent| && w.sent[i].accepted && HasAccount(w.t, w.sent[i].id)
    && AccountOf(w.t, w.sent[i].id) == k && Row(w, w.sent[i].id).nonce == Some(n)
  }

  ghost predicate Capped(w: World) { forall k :: BroadcastOf(w, k) <= PendingOf(w, k) }

  /** A nonce the gateway took is counted, and nobody else holds it. */
  ghost predicate Burnt(w: World, i: int) {
    forall k, n :: Spends(w, i, k, n) ==> n < BroadcastOf(w, k) && OnlyHolder(w, w.sent[i].id, k, n)
  }

  ghost predicate Unlike(w: World) {
    forall i, j, k, n :: Spends(w, i, k, n) && Spends(w, j, k, n) ==> i == j
  }

  /** A broadcast counter that has moved is one more than a nonce the gateway took. */
  predicate Tops(w: World, i: int, k: NonceKey) { Spends(w, i, k, BroadcastOf(w, k) - 1) }

  ghost predicate ToppedAt(w: World, k: NonceKey) { BroadcastOf(w, k) != 0 ==> exists i :: Tops(w, i, k) }

  ghost predicate Spotless(w: World) {
    Ordered(w) && Trusted(w) && Capped(w) && (forall i :: Burnt(w, i)) && Unlike(w) && forall k :: ToppedAt(w, k)
  }

  /** The row's nonce is the latest one, and it has been broadcast. */
  predicate Recalls(w: World, id: Id) {
    && HasAccount(w.t, id) && Row(w, id).nonce.Some? && Row(w, id).nonce.value >= 0
    && PendingOf(w, AccountOf(w.t, id)) == BroadcastOf(w, AccountOf(w.t, id)) == Row(w, id).nonce.value + 1
  }

  /** A `Fail` that neither robs a holder nor gives back a broadcast nonce. */
  ghost predicate Harmless(w: World, s: Step) {
    s.FailStep? ==> !StealsNonce(w, s.id) && !Recalls(w, s.id)
  }

  // ----- counters -----

  ghost predicate SameBroadcast(ns: map<NonceKey, NonceRow>, ns': map<NonceKey, NonceRow>) {
    forall k :: NonceAt(ns', k).broadcast == NonceAt(ns, k).broadcast
  }

  lemma RollbackIsSilent(t: Tables, k: NonceKey, h: Hold)
    ensures SameBroadcast(t.nonces, RolledBack(t, k, h).nonces)
  {
  }

  lemma ReserveIsSilent(w: World, id: Id, granted: bool)
    ensures SameBroadcast(w.t.nonces, DoReserve(w, id, granted).t.nonces)
  {
    if Running(w, id) && IsEvm(AccountOf(w.t, id).1) {
    }
  }

  lemma FinishIsSilent(w: World, id: Id, o: Outcome)
    ensures SameBroadcast(w.t.nonces, DoFinish(w, id, o).t.nonces)
  {
    if CanFinish(w, id) {
      RollbackIsSilent(w.t, AccountOf(w.t, id), w.calls[id].hold);
    }
  }

  lemma RefusalIsSilent(w: World, id: Id)
    ensures SameBroadcast(w.t.nonces, DoBroadcast(w, id, None).t.nonces)
  {
    if Sendable(w.t, id) {
      RollbackIsSilent(w.t, AccountOf(w.t, id), HoldOn(Row(w, id)));
    }
  }

  lemma FailIsSilent(w: World, id: Id, reason: string)
    ensures SameBroadcast(w.t.nonces, DoFail(w, id, reason).t.nonces)
  {
    if HasAccount(w.t, id) {
      RollbackIsSilent(w.t, AccountOf(w.t, id), HoldOn(Row(w, id)).(ops := []));
    }
  }

  predicate IsAcceptance(s: Step) { s.BroadcastStep? && s.txHash.Some? }

  lemma StepIsSilent(w: World, s: Step)
    requires CallOk(w, IdOf(s)) && RowOk(w, IdOf(s)) && !IsAcceptance(s)
    ensures SameBroadcast(w.t.nonces, Next(w, s).t.nonces)
  {
    match s
    case ReserveStep(id, granted) => ReserveIsSilent(w, id, granted);
    case FinishStep(id, o) => FinishIsSilent(w, id, o);
    case BroadcastStep(id, txHash) => RefusalIsSilent(w, id);
    case FailStep(id, reason) => FailIsSilent(w, id, reason);
    case _ => OtherIsIdle(w, s);
  }

  predicate IsSent(w: World, s: Step) { s.BroadcastStep? && Sendable(w.t, s.id) }

  /** Only the gateway's acceptance raises a broadcast counter, to the nonce plus
      one, unless the counter is there already. */
  lemma AcceptanceTops(w: World, id: Id, hash: string)
    requires RowOk(w, id) && Sendable(w.t, id)
    ensures var w' := DoBroadcast(w, id, Some(hash)); var k := AccountOf(w.t, id);
      && HasAccount(w'.t, id) && AccountOf(w'.t, id) == k && Row(w', id).nonce == Row(w, id).nonce
      && (forall j :: j != k ==> BroadcastOf(w', j) == BroadcastOf(w, j))
      && (forall j :: PendingOf(w', j) == PendingOf(w, j))
      && BroadcastOf(w', k) == (match Row(w, id).nonce
                                case None => BroadcastOf(w, k)
                                case Some(n) => if n + 1 > BroadcastOf(w, k) then n + 1 else BroadcastOf(w, k))
  {
  }

  /** A pending counter falls only past the nonce on the touched row, which a call
      holds or a signed withdrawal has, unless it is failed. */
  predicate DropsOwn(w: World, s: Step, k: NonceKey) {
    && HasAccount(w.t, IdOf(s)) && AccountOf(w.t, IdOf(s)) == k
    && Row(w, IdOf(s)).nonce == Some(PendingOf(w, k) - 1)
    && (s.FailStep? || CanFinish(w, IdOf(s)) || Row(w, IdOf(s)).stage == Signed)
  }

  lemma ReserveDropsNone(w: World, id: Id, granted: bool, k: NonceKey)
    requires CountersOk(w) && CallOk(w, id)
    ensures PendingOf(DoReserve(w, id, granted), k) >= PendingOf(w, k)
  {
    if Running(w, id) {
      if IsEvm(AccountOf(w.t, id).1) {
      } else if AccountOf(w.t, id).1 == Bitcoin {
        BitcoinRollbackIsIdle(w, AccountOf(w.t, id));
      }
    }
  }

  lemma RollbackDrops(t: Tables, j: NonceKey, h: Hold, k: NonceKey)
    ensures var p := NonceAt(RolledBack(t, j, h).nonces, k).pending;
      p < NonceAt(t.nonces, k).pending ==> j == k && IsEvm(k.1) && h.nonce == NonceAt(t.nonces, k).pending - 1 >= 0
  {
  }

  lemma FinishDropsOwn(w: World, id: Id, o: Outcome, k: NonceKey)
    requires CallOk(w, id) && RowOk(w, id)
    ensures PendingOf(DoFinish(w, id, o), k) < PendingOf(w, k) ==> DropsOwn(w, FinishStep(id, o), k)
  {
    if CanFinish(w, id) {
      RollbackDrops(w.t, AccountOf(w.t, id), w.calls[id].hold, k);
    }
  }

  lemma BroadcastDropsOwn(w: World, id: Id, txHash: Option<string>, k: NonceKey)
    requires RowOk(w, id)
    ensures PendingOf(DoBroadcast(w, id, txHash), k) < PendingOf(w, k) ==> DropsOwn(w, BroadcastStep(id, txHash), k)
  {
    if Sendable(w.t, id) {
      if txHash.Some? {
        AcceptanceTops(w, id, txHash.value);
      } else {
        RollbackDrops(w.t, AccountOf(w.t, id), HoldOn(Row(w, id)), k);
      }
    }
  }

  lemma StepDropsOwn(w: World, s: Step, k: NonceKey)
    requires CountersOk(w) && CallOk(w, IdOf(s)) && RowOk(w, IdOf(s))
    ensures PendingOf(Next(w, s), k) < PendingOf(w, k) ==> DropsOwn(w, s, k)
  {
    if s.ReserveStep? {
      ReserveDropsNone(w, s.id, s.granted, k);
    } else if s.FinishStep? {
      FinishDropsOwn(w, s.id, s.o, k);
    } else if s.BroadcastStep? {
      BroadcastDropsOwn(w, s.id, s.txHash, k);
    } else if s.FailStep? {
      if HasAccount(w.t, s.id) { RollbackDrops(w.t, AccountOf(w.t, s.id), HoldOn(Row(w, s.id)).(ops := []), k); }
    } else {
      OtherIsIdle(w, s);
    }
  }

  /** Whoever holds a nonce without being out has not had it taken by the gateway. */
  lemma HolderIsNotTopped(w: World, id: Id, k: NonceKey, n: int)
    requires Spotless(w) && HasNonce(w, id, k, n) && !IsOut(w, id)
    ensures BroadcastOf(w, k) != n + 1
    ensures forall i :: !Spends(w, i, k, n)
  {
    forall i ensures !Spends(w, i, k, n) {
      assert Burnt(w, i);
    }
    assert Below(w, id) && ToppedAt(w, k);
  }

  /** Where a counter falls, the nonce it falls past was not broadcast. */
  lemma DropStaysCapped(w: World, s: Step, k: NonceKey)
    requires Spotless(w) && Harmless(w, s) && DropsOwn(w, s, k)
    ensures BroadcastOf(w, k) < PendingOf(w, k) || PendingOf(w, k) <= 0
  {
    var id := IdOf(s);
    assert CallOk(w, id) && BroadcastOf(w, k) <= PendingOf(w, k);
    if !s.FailStep? {
      HolderIsNotTopped(w, id, k, PendingOf(w, k) - 1);
    }
  }

  lemma AcceptanceKeepsCapped(w: World, id: Id, hash: string, k: NonceKey)
    requires Spotless(w) && Sendable(w.t, id)
    ensures var w' := DoBroadcast(w, id, Some(hash)); BroadcastOf(w', k) <= PendingOf(w', k)
  {
    assert RowOk(w, id) && Below(w, id) && BroadcastOf(w, k) <= PendingOf(w, k);
    AcceptanceTops(w, id, hash);
    assert Row(w, id).nonce.Some? ==> HasNonce(w, id, AccountOf(w.t, id), Row(w, id).nonce.value);
  }

  lemma StepKeepsCapped(w: World, s: Step, k: NonceKey)
    requires Spotless(w) && Harmless(w, s)
    ensures BroadcastOf(Next(w, s), k) <= PendingOf(Next(w, s), k)
  {
    var id, w' := IdOf(s), Next(w, s);
    assert CallOk(w, id) && RowOk(w, id) && BroadcastOf(w, k) <= PendingOf(w, k);
    if IsAcceptance(s) {
      if Sendable(w.t, id) { AcceptanceKeepsCapped(w, id, s.txHash.value, k); }
    } else {
      StepIsSilent(w, s);
      if PendingOf(w', k) < PendingOf(w, k) {
        StepMovesOn(w, s);
        StepDropsOwn(w, s, k);
        DropStaysCapped(w, s, k);
      }
    }
  }

  // ----- transmissions -----

  /** What the gateway took stays as it was. */
  lemma SpendsStays(w: World, s: Step, i: int, k: NonceKey, n: int)
    requires Trusted(w) && 0 <= i < |w.sent|
    ensures i < |Next(w, s).sent| && Next(w, s).sent[i] == w.sent[i]
    ensures Spends(Next(w, s), i, k, n) <==> Spends(w, i, k, n)
  {
    var id := w.sent[i].id;
    AllOnward(w, s, id);
    assert CallOk(w, IdOf(s)) && RowOk(w, IdOf(s)) && RowOk(w, id);
    StepIsLocal(w, s);
    SentGrows(w, s);
  }

  lemma SentGrows(w: World, s: Step)
    ensures Next(w, s).sent == if IsSent(w, s) then w.sent + [Transmission(s.id, Row(w, s.id).signedTx, s.txHash.Some?)] else w.sent
  {
  }

  lemma CountersRise(w: World, s: Step, k: NonceKey)
    requires CallOk(w, IdOf(s)) && RowOk(w, IdOf(s))
    ensures BroadcastOf(Next(w, s), k) >= BroadcastOf(w, k)
  {
    if IsAcceptance(s) {
      if Sendable(w.t, s.id) { AcceptanceTops(w, s.id, s.txHash.value); }
    } else {
      StepIsSilent(w, s);
    }
  }

  /** Who comes to hold a nonce gets one that was not reserved before. */
  lemma NewHolder(w: World, s: Step, j: Id, k: NonceKey, n: int)
    requires Ordered(w) && (s.FailStep? ==> !StealsNonce(w, s.id)) && HasNonce(Next(w, s), j, k, n)
    ensures HasNonce(w, j, k, n) || n == PendingOf(w, k)
  {
    assert RowOk(w, j);
    StepKeepsShape(w, s);
    StepMovesOn(w, s);
  }

  /** Nobody comes to hold a nonce the gateway took. */
  lemma BurntStays(w: World, s: Step, i: int)
    requires Spotless(w) && Harmless(w, s) && 0 <= i < |w.sent|
    ensures Burnt(Next(w, s), i)
  {
    var id, w' := IdOf(s), Next(w, s);
    assert CallOk(w, id) && RowOk(w, id);
    forall k, n | Spends(w', i, k, n) ensures n < BroadcastOf(w', k) && OnlyHolder(w', w'.sent[i].id, k, n) {
      SpendsStays(w, s, i, k, n);
      assert Burnt(w, i) && BroadcastOf(w, k) <= PendingOf(w, k);
      CountersRise(w, s, k);
      forall j | j != w.sent[i].id ensures !HasNonce(w', j, k, n) {
        if HasNonce(w', j, k, n) { NewHolder(w, s, j, k, n); }
      }
    }
  }

  /** A transmission just accepted took a nonce that none before it took. */
  lemma NewIsBurnt(w: World, id: Id, hash: string)
    requires Spotless(w) && Sendable(w.t, id)
    ensures var w' := Next(w, BroadcastStep(id, Some(hash))); Burnt(w', |w.sent|)
    ensures Row(w, id).nonce.Some? ==> forall i :: !Spends(w, i, AccountOf(w.t, id), Row(w, id).nonce.value)
  {
    var s := BroadcastStep(id, Some(hash));
    var w', k := Next(w, s), AccountOf(w.t, id);
    assert CallOk(w, id) && RowOk(w, id);
    AcceptanceTops(w, id, hash);
    StepKeepsOrdered(w, s);
    if Row(w, id).nonce.Some? {
      var n := Row(w, id).nonce.value;
      assert HasNonce(w, id, k, n);
      HolderIsNotTopped(w, id, k, n);
      assert HasNonce(w', id, k, n);
    }
  }

  lemma AllBurnt(w: World, s: Step, i: int)
    requires Spotless(w) && Harmless(w, s)
    ensures Burnt(Next(w, s), i)
  {
    SentGrows(w, s);
    if 0 <= i < |w.sent| {
      BurntStays(w, s, i);
    } else if IsAcceptance(s) && Sendable(w.t, s.id) {
      NewIsBurnt(w, s.id, s.txHash.value);
    }
  }

  /** Either the transmission was there, or it is new and no earlier one has its nonce. */
  lemma NewIsUnlike(w: World, s: Step, i: int, k: NonceKey, n: int)
    requires Spotless(w) && Spends(Next(w, s), i, k, n)
    ensures Spends(w, i, k, n) || (i == |w.sent| && forall j :: !Spends(w, j, k, n))
  {
    SentGrows(w, s);
    if i < |w.sent| {
      SpendsStays(w, s, i, k, n);
    } else {
      assert RowOk(w, s.id);
      AcceptanceTops(w, s.id, s.txHash.value);
      NewIsBurnt(w, s.id, s.txHash.value);
    }
  }

  lemma StepKeepsUnlike(w: World, s: Step)
    requires Spotless(w)
    ensures Unlike(Next(w, s))
  {
    var w' := Next(w, s);
    forall i, j, k, n | Spends(w', i, k, n) && Spends(w', j, k, n) ensures i == j {
      NewIsUnlike(w, s, i, k, n);
      NewIsUnlike(w, s, j, k, n);
    }
  }

  lemma StepKeepsTops(w: World, s: Step, k: NonceKey)
    requires Spotless(w)
    ensures ToppedAt(Next(w, s), k)
  {
    var w' := Next(w, s);
    assert CallOk(w, IdOf(s)) && RowOk(w, IdOf(s)) && ToppedAt(w, k);
    SentGrows(w, s);
    if BroadcastOf(w', k) == BroadcastOf(w, k) {
      if BroadcastOf(w, k) != 0 {
        var i :| Tops(w, i, k);
        SpendsStays(w, s, i, k, BroadcastOf(w, k) - 1);
        assert Tops(w', i, k);
      }
    } else {
      if !IsAcceptance(s) { StepIsSilent(w, s); }
      AcceptanceTops(w, s.id, s.txHash.value);
      assert Tops(w', |w.sent|, k);
    }
  }

  // ----- runs -----

  lemma HarmlessKeepsSpotless(w: World, s: Step)
    requires Spotless(w) && Harmless(w, s)
    ensures Spotless(Next(w, s))
  {
    StepKeepsOrdered(w, s);
    StepKeepsTrust(w, s);
    forall k ensures BroadcastOf(Next(w, s), k) <= PendingOf(Next(w, s), k) { StepKeepsCapped(w, s, k); }
    forall i ensures Burnt(Next(w, s), i) { AllBurnt(w, s, i); }
    StepKeepsUnlike(w, s);
    forall k ensures ToppedAt(Next(w, s), k) { StepKeepsTops(w, s, k); }
  }

  /** `Fail` keeps every broadcast counter within its pending counter if and only
      if it does not give back the latest nonce after it was broadcast. */
  lemma FailKeepsCappedIff(w: World, id: Id, reason: string)
    requires Shape(w) && Capped(w)
    ensures Capped(DoFail(w, id, reason)) <==> !Recalls(w, id)
  {
    var w' := DoFail(w, id, reason);
    assert RowOk(w, id);
    if Recalls(w, id) {
      var k := AccountOf(w.t, id);
      assert BroadcastOf(w', k) > PendingOf(w', k);
    } else {
      forall k ensures BroadcastOf(w', k) <= PendingOf(w', k) {
        assert BroadcastOf(w, k) <= PendingOf(w, k);
      }
    }
  }

  /** Every step keeps all of this if and only if it is not a `Fail` that gives back
      the latest nonce while somebody holds it or after it was broadcast. */
  lemma StepKeepsSpotlessIff(w: World, s: Step)
    requires Spotless(w)
    ensures Spotless(Next(w, s)) <==> Harmless(w, s)
  {
    if Harmless(w, s) {
      HarmlessKeepsSpotless(w, s);
    } else {
      FailKeepsOrderedIff(w, s.id, s.reason);
      FailKeepsCappedIff(w, s.id, s.reason);
    }
  }

  ghost predicate HarmlessRun(w: World, steps: seq<Step>)
    decreases |steps|
  {
    steps != [] ==> Harmless(w, steps[0]) && HarmlessRun(Next(w, steps[0]), steps[1..])
  }

  lemma {:induction false} RunKeepsSpotless(w: World, steps: seq<Step>)
    requires Spotless(w) && HarmlessRun(w, steps)
    ensures Spotless(Run(w, steps))
    decreases |steps|
  {
    if steps != [] {
      StepKeepsSpotlessIff(w, steps[0]);
      RunKeepsSpotless(Next(w, steps[0]), steps[1..]);
    }
  }

  /** In every run without such a `Fail`, no two transmissions that the gateway
      accepted for one account carry the same nonce. */
  lemma AcceptedNoncesDiffer(steps: seq<Step>, i: nat, j: nat)
    requires HarmlessRun(START, steps)
    requires i < j < |Run(START, steps).sent|
    requires Run(START, steps).sent[i].accepted && Run(START, steps).sent[j].accepted
    ensures var w := Run(START, steps); var a, b := w.sent[i].id, w.sent[j].id;
      && HasAccount(w.t, a) && HasAccount(w.t, b)
      && (AccountOf(w.t, a) == AccountOf(w.t, b) && Row(w, a).nonce.Some? ==> Row(w, a).nonce != Row(w, b).nonce)
  {
    RunKeepsSpotless(START, steps);
    var w := Run(START, steps);
    var a, b := w.sent[i].id, w.sent[j].id;
    assert RowOk(w, a) && RowOk(w, b);
    if AccountOf(w.t, a) == AccountOf(w.t, b) && Row(w, a).nonce.Some? && Row(w, a).nonce == Row(w, b).nonce {
      var k, n := AccountOf(w.t, a), Row(w, a).nonce.value;
      assert Spends(w, i, k, n) && Spends(w, j, k, n);
      assert false;
    }
  }

  /** And there every broadcast counter is zero or one more than a nonce the gateway
      took, and never above the pending counter. */
  lemma BroadcastIsBelowPending(steps: seq<Step>, k: NonceKey)
    requires HarmlessRun(START, steps)
    ensures var w := Run(START, steps);
      ToppedAt(w, k) && BroadcastOf(w, k) <= PendingOf(w, k)
  {
    RunKeepsSpotless(START, steps);
  }

  // ----- runs that fail only signed withdrawals -----

  lemma {:induction false} SignedIsHarmless(w: World, steps: seq<Step>)
    requires Spotless(w) && FailsOnlySigned(w, steps)
    ensures HarmlessRun(w, steps)
    decreases |steps|
  {
    if steps != [] {
      if steps[0].FailStep? { SignedFailsSafely(w, steps[0].id); }
      HarmlessKeepsSpotless(w, steps[0]);
      SignedIsHarmless(Next(w, steps[0]), steps[1..]);
    }
  }

  lemma SignedFailsSafely(w: World, id: Id)
    requires Spotless(w) && (id in w.t.withdrawals ==> Row(w, id).stage == Signed)
    ensures !StealsNonce(w, id) && !Recalls(w, id)
  {
    HoldersFailSafely(w, id);
    if Recalls(w, id) {
      HolderIsNotTopped(w, id, AccountOf(w.t, id), Row(w, id).nonce.value);
      assert false;
    }
  }

  /** The withdrawal is broadcast or confirmed. */
  predicate IsLiveOut(w: World, id: Id) { id in w.t.withdrawals && Row(w, id).stage in {Broadcast, Confirmed} }

  /** Every accepted transmission is still broadcast or confirmed. */
  ghost predicate AcceptedStand(w: World) {
    forall i :: 0 <= i < |w.sent| && w.sent[i].accepted ==> IsLiveOut(w, w.sent[i].id)
  }

  lemma ConfirmStaysOut(w: World, id: Id, hash: string)
    ensures IsLiveOut(w, id) ==> IsLiveOut(DoConfirm(w, id, hash), id)
  {
  }

  lemma ReorgStaysOut(w: World, id: Id, ops: seq<string>)
    ensures IsLiveOut(w, id) ==> IsLiveOut(DoReorg(w, id, ops), id)
  {
  }

  lemma StepStaysOut(w: World, s: Step)
    requires CallOk(w, IdOf(s)) && FailsSigned(w, s)
    ensures IsLiveOut(w, IdOf(s)) ==> IsLiveOut(Next(w, s), IdOf(s))
  {
    if s.ConfirmStep? {
      ConfirmStaysOut(w, s.id, s.hash);
    } else if s.ReorgStep? {
      ReorgStaysOut(w, s.id, s.ops);
    } else if IsLiveOut(w, IdOf(s)) {
      assert Next(w, s).t.withdrawals == w.t.withdrawals;
    }
  }

  lemma AllStayOut(w: World, s: Step, j: Id)
    requires Shape(w) && FailsSigned(w, s)
    ensures IsLiveOut(w, j) ==> IsLiveOut(Next(w, s), j)
  {
    assert CallOk(w, IdOf(s)) && RowOk(w, IdOf(s));
    StepIsLocal(w, s);
    StepStaysOut(w, s);
  }

  lemma AcceptanceIsOut(w: World, id: Id, hash: string)
    requires Sendable(w.t, id)
    ensures IsLiveOut(DoBroadcast(w, id, Some(hash)), id)
  {
  }

  lemma {:induction false} RunKeepsAccepted(w: World, steps: seq<Step>)
    requires Shape(w) && AcceptedStand(w) && FailsOnlySigned(w, steps)
    ensures AcceptedStand(Run(w, steps))
    decreases |steps|
  {
    if steps != [] {
      var s := steps[0];
      StepKeepsShape(w, s);
      SentGrows(w, s);
      forall j ensures IsLiveOut(w, j) ==> IsLiveOut(Next(w, s), j) { AllStayOut(w, s, j); }
      if IsAcceptance(s) && Sendable(w.t, s.id) { AcceptanceIsOut(w, s.id, s.txHash.value); }
      RunKeepsAccepted(Next(w, s), steps[1..]);
    }
  }

  /** In every run that fails only signed withdrawals, every broadcast counter is
      zero or one more than the nonce of a withdrawal that is still out. */
  lemma TopIsStillOut(steps: seq<Step>, k: NonceKey) returns (id: Id)
    requires FailsOnlySigned(START, steps)
    ensures HarmlessRun(START, steps)
    ensures var w := Run(START, steps);
      BroadcastOf(w, k) != 0 ==>
        IsLiveOut(w, id) && HasAccount(w.t, id) && AccountOf(w.t, id) == k && Row(w, id).nonce == Some(BroadcastOf(w, k) - 1)
  {
    SignedIsHarmless(START, steps);
    RunKeepsSpotless(START, steps);
    RunKeepsAccepted(START, steps);
    var w := Run(START, steps);
    assert ToppedAt(w, k);
    id := "";
    if BroadcastOf(w, k) != 0 {
      var i :| Tops(w, i, k);
      id := w.sent[i].id;
    }
  }

  // ----- `Fail` on a withdrawal that is out -----

  /** Otherwise the next reservation hands out a nonce that was broadcast. */
  lemma RecalledNonceIsReissued(w: World, id: Id, x: Id, reason: string)
    requires Shape(w) && Recalls(w, id)
    requires x != id && Running(w, x) && w.calls[x].Choosing? && AccountOf(w.t, x) == AccountOf(w.t, id)
    ensures var w' := Next(Next(w, FailStep(id, reason)), ReserveStep(x, true)); var k := AccountOf(w.t, id);
      HasNonce(w', x, k, Row(w, id).nonce.value) && Row(w, id).nonce.value < BroadcastOf(w', k)
  {
    assert CallOk(w, x) && RowOk(w, id);
    var k, n := AccountOf(w.t, id), Row(w, id).nonce.value;
    var w1 := DoFail(w, id, reason);
    assert PendingOf(w1, k) == n && BroadcastOf(w1, k) == n + 1;
    assert Running(w1, x) && w1.calls[x].Choosing? && AccountOf(w1.t, x) == k;
  }
}
