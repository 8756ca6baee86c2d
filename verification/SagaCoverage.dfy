/** The coins a bitcoin withdrawal reserves are its wallet's and cover its amount. */
module SagaCoverage {
  import opened Text
  import opened Records
  import opened Greedy
  import opened UtxoSelection
  import opened Withdrawals
  import opened Saga
  import opened SagaReal
  import opened SagaPayments
  import opened SagaBytes
  import SagaOutpoints

  function Asked(row: Withdrawal): int { ParseInt64(row.amount).0 }

  /** The coins are known and belong to the wallet. */
  predicate BelongTo(us: map<string, Utxo>, ops: seq<string>, wallet: Id) {
    forall op :: op in ops ==> op in us && us[op].wallet == wallet
  }

  /** Different known coins of the wallet; none for nothing; worth at least the
      amount exactly when their true total is not below the 64-bit range. */
  ghost predicate Weighed(us: map<string, Utxo>, ops: seq<string>, amount: int, wallet: Id) {
    && Greedy.Distinct(ops) && Elems(ops) <= us.Keys && (ops != [] ==> amount > 0) && BelongTo(us, ops, wallet)
    && (SumSet(Values(us), Elems(ops)) >= amount <==> SumSet(Values(us), Elems(ops)) >= MIN_INT64)
  }

  /** Coins stay and keep their value and their wallet. */
  ghost predicate ValuesStay(us: map<string, Utxo>, us': map<string, Utxo>) {
    forall op :: op in us ==> op in us' && us'[op].value == us[op].value && us'[op].wallet == us[op].wallet
  }

  ghost predicate SameCoins(us: map<string, Utxo>, us': map<string, Utxo>) {
    us'.Keys == us.Keys && ValuesStay(us, us')
  }

  lemma {:induction false} SumSetSame<T>(m: map<T, int>, m': map<T, int>, s: set<T>)
    requires s <= m.Keys && s <= m'.Keys && forall x :: x in s ==> m[x] == m'[x]
    ensures SumSet(m, s) == SumSet(m', s)
    decreases |s|
  {
    if s != {} {
      var x :| x in s;
      SumSetPick(m, s, x);
      SumSetPick(m', s, x);
      SumSetSame(m, m', s - {x});
    }
  }

  lemma WeighedStays(us: map<string, Utxo>, us': map<string, Utxo>, ops: seq<string>, amount: int, wallet: Id)
    requires Weighed(us, ops, amount, wallet) && ValuesStay(us, us')
    ensures Weighed(us', ops, amount, wallet)
  {
    SumSetSame(Values(us), Values(us'), Elems(ops));
  }

  /** What a withdrawal is about to lock, has locked or has spent. */
  function Promised(w: World, id: Id): Option<seq<string>> {
    if id in w.calls && w.calls[id].Choosing? then w.calls[id].wanted
    else if SagaOutpoints.Holds(w, id) && Row(w, id).outpoints != [] then Some(Row(w, id).outpoints)
    else None
  }

  ghost predicate Backed(w: World, id: Id) {
    id in w.t.withdrawals && Promised(w, id).Some? ==>
      Weighed(w.t.utxos, Promised(w, id).value, Asked(Row(w, id)), Row(w, id).wallet)
  }

  ghost predicate Solvent(w: World) { Shape(w) && forall id :: Backed(w, id) }

  predicate SameAsk(v: Withdrawal, w: Withdrawal) { v.amount == w.amount && v.wallet == w.wallet }

  /** A step promises nothing new and leaves the coins' values alone. */
  ghost predicate PromisesWell(w: World, w': World, id: Id) {
    && SameCoins(w.t.utxos, w'.t.utxos)
    && (id in w'.t.withdrawals && Promised(w', id).Some? ==>
          id in w.t.withdrawals && Promised(w', id) == Promised(w, id) && SameAsk(Row(w, id), Row(w', id)))
  }

  lemma SamePromiseIsBacked(w: World, w': World, j: Id)
    requires Backed(w, j) && ValuesStay(w.t.utxos, w'.t.utxos)
    requires j in w'.t.withdrawals && Promised(w', j).Some? ==>
      j in w.t.withdrawals && Promised(w', j) == Promised(w, j) && SameAsk(Row(w, j), Row(w', j))
    ensures Backed(w', j)
  {
    if j in w'.t.withdrawals && Promised(w', j).Some? {
      WeighedStays(w.t.utxos, w'.t.utxos, Promised(w', j).value, Asked(Row(w', j)), Row(w', j).wallet);
    }
  }

  lemma SolventFromOne(w: World, w': World, id: Id)
    requires Solvent(w) && Shape(w') && Local(w, w', id)
    requires ValuesStay(w.t.utxos, w'.t.utxos) && Backed(w', id)
    ensures Solvent(w')
  {
    forall j | j != id ensures Backed(w', j) {
      assert Backed(w, j);
      SamePromiseIsBacked(w, w', j);
    }
  }

  lemma RelockStays(us: map<string, Utxo>, ops: seq<string>, lock: LockState, txHash: Option<string>)
    ensures SameCoins(us, RelockAll(us, ops, lock, txHash))
  {
    RelockAllKeeps(us, ops, lock, txHash);
  }

  /** A choice made from a listing is weighed. */
  lemma RealChoiceIsWeighed(w: World, id: Id, wanted: Option<seq<string>>)
    requires CanList(w, id) && RealChoice(w, id, wanted) && wanted.Some?
    ensures Weighed(w.t.utxos, wanted.value, Asked(Row(w, id)), Row(w, id).wallet)
  {
    var order :| IsListing(w.t.utxos, Row(w, id).wallet, order) && wanted == Wanted(w.t, Row(w, id), order);
    ChoiceCoversIff(w.t.utxos, order, Asked(Row(w, id)));
    ChoiceIsOwn(w.t.utxos, Row(w, id).wallet, order, Asked(Row(w, id)));
  }

  lemma ListIsBacked(w: World, id: Id, wanted: Option<seq<string>>)
    requires Backed(w, id) && (CanList(w, id) ==> RealChoice(w, id, wanted))
    ensures Backed(DoList(w, id, wanted), id)
  {
    if CanList(w, id) && wanted.Some? {
      RealChoiceIsWeighed(w, id, wanted);
    }
  }

  lemma ReserveRelocks(t: Tables, id: Id, k: NonceKey, granted: bool, wanted: Option<seq<string>>)
    ensures var us := Reserve(t, id, k, granted, wanted).0.utxos;
      us == t.utxos || (wanted.Some? && us == RelockAll(t.utxos, wanted.value, Locked, None))
  {
    if IsEvm(k.1) {
    } else if k.1 == Bitcoin && CanTake(t.utxos, wanted) {
    }
  }

  lemma ReserveStays(t: Tables, id: Id, k: NonceKey, granted: bool, wanted: Option<seq<string>>)
    ensures SameCoins(t.utxos, Reserve(t, id, k, granted, wanted).0.utxos)
  {
    var us := Reserve(t, id, k, granted, wanted).0.utxos;
    ReserveRelocks(t, id, k, granted, wanted);
    if us != t.utxos {
      RelockStays(t.utxos, wanted.value, Locked, None);
    }
  }

  lemma ReservePromises(w: World, id: Id, granted: bool)
    requires CallOk(w, id) && RowOk(w, id)
    ensures PromisesWell(w, DoReserve(w, id, granted), id)
  {
    if Running(w, id) && w.calls[id].Choosing? {
      ReserveStays(w.t, id, AccountOf(w.t, id), granted, w.calls[id].wanted);
    }
  }

  lemma FinishPromises(w: World, id: Id, o: Outcome)
    requires CallOk(w, id) && RowOk(w, id)
    ensures PromisesWell(w, DoFinish(w, id, o), id)
  {
    if CanFinish(w, id) {
      RelockStays(w.t.utxos, w.calls[id].hold.ops, Free, Some(""));
    }
  }

  lemma BroadcastPromises(w: World, id: Id, txHash: Option<string>)
    requires CallOk(w, id)
    ensures PromisesWell(w, DoBroadcast(w, id, txHash), id)
  {
    if Sendable(w.t, id) {
      RelockStays(w.t.utxos, Row(w, id).outpoints, Free, Some(""));
      if txHash.Some? {
        RelockStays(w.t.utxos, Row(w, id).outpoints, Spent, txHash);
      }
    }
  }

  lemma FailPromises(w: World, id: Id, reason: string)
    ensures PromisesWell(w, DoFail(w, id, reason), id)
  {
  }

  lemma ConfirmPromises(w: World, id: Id, hash: string)
    ensures PromisesWell(w, DoConfirm(w, id, hash), id)
  {
  }

  lemma DemotionPromises(w: World, id: Id, known: bool)
    ensures PromisesWell(w, w.(t := Demoted(w.t, id, known)), id)
  {
  }

  lemma ReorgPromises(w: World, id: Id, ops: seq<string>)
    ensures PromisesWell(w, DoReorg(w, id, ops), id)
  {
    RelockStays(w.t.utxos, ops, Free, Some(""));
    var freed := w.(t := w.t.(utxos := Restore(w.t.utxos, ops)));
    assert Promised(freed, id) == Promised(w, id);
    DemotionPromises(freed, id, AllKnown(w.t.utxos, ops));
    DemotionPromises(w, id, false);
  }

  lemma DecidePromises(w: World, id: Id, v: Verdict)
    requires CallOk(w, id)
    ensures PromisesWell(w, DoDecide(w, id, v), id)
  {
    if Running(w, id) && w.calls[id].Deciding? {
      if Approves(v) {
      }
    }
  }

  lemma TrackStays(us: map<string, Utxo>, op: string, u: Utxo)
    ensures ValuesStay(us, InsertUtxo(us, op, u))
  {
  }

  lemma TrackIsBacked(w: World, op: string, u: Utxo)
    requires Solvent(w)
    ensures var w' := Next(w, Track(op, u)); ValuesStay(w.t.utxos, w'.t.utxos) && Backed(w', "")
  {
    TrackStays(w.t.utxos, op, u);
    assert Backed(w, "");
    SamePromiseIsBacked(w, Next(w, Track(op, u)), "");
  }

  lemma StepPromises(w: World, s: Step)
    requires !s.PruneStep? && !s.Track? && !s.ListStep? && CallOk(w, IdOf(s)) && RowOk(w, IdOf(s))
    ensures PromisesWell(w, Next(w, s), IdOf(s))
  {
    match s
    case OpenStep(id, r) =>
    case DecideStep(id, v) => DecidePromises(w, id, v);
    case ReserveStep(id, granted) => ReservePromises(w, id, granted);
    case FinishStep(id, o) => FinishPromises(w, id, o);
    case BroadcastStep(id, txHash) => BroadcastPromises(w, id, txHash);
    case ConfirmStep(id, hash) => ConfirmPromises(w, id, hash);
    case FailStep(id, reason) => FailPromises(w, id, reason);
    case ReorgStep(id, ops) => ReorgPromises(w, id, ops);
    case _ =>
  }

  predicate Promises(w: World, id: Id, op: string) {
    id in w.t.withdrawals && Promised(w, id).Some? && op in Promised(w, id).value
  }

  /** No coin that is promised is deleted. */
  ghost predicate Frugal(w: World, s: Step) {
    s.PruneStep? ==> forall j, op :: op in s.ops ==> !Promises(w, j, op)
  }

  lemma PruneKeepsWeighed(us: map<string, Utxo>, del: seq<string>, ops: seq<string>, amount: int, wallet: Id)
    requires Weighed(us, ops, amount, wallet)
    ensures Weighed(Prune(us, del), ops, amount, wallet) <==> forall op :: op in del ==> op !in ops
  {
    var us' := Prune(us, del);
    if forall op :: op in del ==> op !in ops {
      assert Elems(ops) <= us'.Keys;
      SumSetSame(Values(us), Values(us'), Elems(ops));
    } else {
      var op :| op in del && op in ops;
      assert op in Elems(ops) && op !in us';
    }
  }

  /** Pruning keeps all promises weighed exactly when it deletes no promised coin. */
  lemma PruneKeepsSolventIff(w: World, ops: seq<string>)
    requires Solvent(w)
    ensures Solvent(Next(w, PruneStep(ops))) <==> Frugal(w, PruneStep(ops))
  {
    var w' := Next(w, PruneStep(ops));
    StepKeepsShape(w, PruneStep(ops));
    forall j ensures Promised(w', j) == Promised(w, j) {}
    forall j | j in w.t.withdrawals && Promised(w, j).Some?
      ensures Backed(w', j) <==> forall op :: op in ops ==> !Promises(w, j, op)
    {
      assert Backed(w, j);
      PruneKeepsWeighed(w.t.utxos, ops, Promised(w, j).value, Asked(Row(w, j)), Row(w, j).wallet);
      assert forall op :: Promises(w, j, op) <==> op in Promised(w, j).value;
    }
  }

  ghost predicate ChoosesReal(w: World, s: Step) {
    s.ListStep? && CanList(w, s.id) ==> RealChoice(w, s.id, s.wanted)
  }

  lemma StepStaysSolvent(w: World, s: Step)
    requires Solvent(w) && !s.PruneStep? && ChoosesReal(w, s)
    ensures Solvent(Next(w, s))
  {
    assert CallOk(w, IdOf(s)) && RowOk(w, IdOf(s));
    StepKeepsShape(w, s);
    assert Backed(w, IdOf(s));
    if s.ListStep? {
      ListIsBacked(w, s.id, s.wanted);
    } else if s.Track? {
      TrackIsBacked(w, s.op, s.u);
    } else {
      StepPromises(w, s);
      SamePromiseIsBacked(w, Next(w, s), IdOf(s));
    }
    SolventFromOne(w, Next(w, s), IdOf(s));
  }

  /** Every step that chooses from a listing, if it chooses, keeps them weighed if
      and only if it deletes no promised coin. */
  lemma StepKeepsSolventIff(w: World, s: Step)
    requires Solvent(w) && ChoosesReal(w, s)
    ensures Solvent(Next(w, s)) <==> Frugal(w, s)
  {
    if s.PruneStep? {
      PruneKeepsSolventIff(w, s.ops);
    } else {
      StepStaysSolvent(w, s);
    }
  }

  ghost predicate FrugalRun(w: World, steps: seq<Step>)
    decreases |steps|
  {
    steps != [] ==> Frugal(w, steps[0]) && FrugalRun(Next(w, steps[0]), steps[1..])
  }

  lemma {:induction false} RunStaysSolvent(c: Codecs, w: World, steps: seq<Step>)
    requires Solvent(w) && FrugalRun(w, steps) && RealRun(c, w, steps)
    ensures Solvent(Run(w, steps))
    decreases |steps|
  {
    if steps != [] {
      assert Real(c, w, steps[0]);
      StepKeepsSolventIff(w, steps[0]);
      RunStaysSolvent(c, Next(w, steps[0]), steps[1..]);
    }
  }

  predicate IsPaidInBitcoin(w: World, id: Id) {
    HasAccount(w.t, id) && AccountOf(w.t, id).1 == Bitcoin && Row(w, id).stage in {Signed, Broadcast, Confirmed}
  }

  /** In every real run that deletes no promised coin, over any values at all, a
      signed, broadcast or confirmed bitcoin withdrawal has an amount that parses
      and is positive and different known outpoints, which cover the amount if
      and only if their true total is not below the 64-bit range. */
  lemma BitcoinCoveredIff(c: Codecs, steps: seq<Step>, id: Id)
    requires RealRun(c, START, steps) && FrugalRun(START, steps) && IsPaidInBitcoin(Run(START, steps), id)
    ensures var w := Run(START, steps); var ops := Row(w, id).outpoints;
      && ParseInt64(Row(w, id).amount).1 && Asked(Row(w, id)) > 0
      && ops != [] && Greedy.Distinct(ops) && Elems(ops) <= w.t.utxos.Keys
      && (SumSet(Values(w.t.utxos), Elems(ops)) >= Asked(Row(w, id)) <==> SumSet(Values(w.t.utxos), Elems(ops)) >= MIN_INT64)
  {
    var w := Run(START, steps);
    RunStaysSolvent(c, START, steps);
    RunKeepsMade(c, START, steps);
    assert CallOk(w, id) && Backed(w, id) && Recorded(w, id) && MadeOk(c, w, id);
    assert Promised(w, id) == Some(Row(w, id).outpoints);
  }

  /** In every real run that deletes no promised coin, whoever is about to lock a
      coin, holds it, or is signed, broadcast or confirmed with it, asked on the
      wallet the coin belongs to. */
  lemma CoinsAreOwn(c: Codecs, steps: seq<Step>, id: Id, op: string)
    requires RealRun(c, START, steps) && FrugalRun(START, steps) && id in Run(START, steps).t.withdrawals
    ensures var w := Run(START, steps);
      || (id in w.calls && w.calls[id].Choosing? && w.calls[id].wanted.Some? && op in w.calls[id].wanted.value)
      || (id in w.calls && w.calls[id].Holding? && op in w.calls[id].hold.ops)
      || (Row(w, id).stage in {Signed, Broadcast, Confirmed} && op in Row(w, id).outpoints)
      ==> op in w.t.utxos && w.t.utxos[op].wallet == Row(w, id).wallet
  {
    var w := Run(START, steps);
    RunStaysSolvent(c, START, steps);
    assert CallOk(w, id) && RowOk(w, id) && Backed(w, id);
  }

  lemma {:induction false} SumSetNonNegative<T>(m: map<T, int>, s: set<T>)
    requires s <= m.Keys && forall x :: x in s ==> m[x] >= 0
    ensures SumSet(m, s) >= 0
    decreases |s|
  {
    if s != {} {
      var x :| x in s;
      SumSetPick(m, s, x);
      SumSetNonNegative(m, s - {x});
    }
  }

  /** So outpoints whose values are not negative always cover the amount. */
  lemma BitcoinIsCovered(c: Codecs, steps: seq<Step>, id: Id)
    requires RealRun(c, START, steps) && FrugalRun(START, steps) && IsPaidInBitcoin(Run(START, steps), id)
    ensures var w := Run(START, steps); var ops := Row(w, id).outpoints;
      && Elems(ops) <= w.t.utxos.Keys
      && ((forall op :: op in Elems(ops) ==> Values(w.t.utxos)[op] >= 0) ==>
            SumSet(Values(w.t.utxos), Elems(ops)) >= Asked(Row(w, id)))
  {
    BitcoinCoveredIff(c, steps, id);
    var w := Run(START, steps);
    var ops := Row(w, id).outpoints;
    if forall op :: op in Elems(ops) ==> Values(w.t.utxos)[op] >= 0 {
      SumSetNonNegative(Values(w.t.utxos), Elems(ops));
    }
  }
}
