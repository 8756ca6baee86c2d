/** One signing call seen whole: it is its three steps back to back, and when it
    fails it leaves no trace on coins and counters. */
module SagaSigning {
  import opened Text
  import opened Bytes
  import opened Records
  import opened Withdrawals
  import opened Saga
  import opened SagaReal
  import opened SagaNonces
  import SagaBytes

  lemma ListThenReserve(w: World, id: Id, wanted: Option<seq<string>>, granted: bool)
    requires CanList(w, id)
    ensures var (t, h) := Reserve(w.t, id, AccountOf(w.t, id), granted, wanted);
      DoReserve(DoList(w, id, wanted), id, granted)
      == w.(t := t, calls := if h.Some? then w.calls[id := Holding(h.value)] else w.calls)
  {
    var w1 := DoList(w, id, wanted);
    assert Running(w1, id) && w1.calls[id] == Choosing(wanted) && w1.calls - {id} == w.calls;
  }

  lemma ReserveKeepsRequest(t: Tables, id: Id, k: NonceKey, granted: bool, wanted: Option<seq<string>>)
    requires HasAccount(t, id)
    ensures var t' := Reserve(t, id, k, granted, wanted).0;
      && HasAccount(t', id) && AccountOf(t', id) == AccountOf(t, id)
      && t'.withdrawals[id].to == t.withdrawals[id].to && t'.withdrawals[id].amount == t.withdrawals[id].amount
  {
    if IsEvm(k.1) {
    } else if k.1 == Bitcoin && CanTake(t.utxos, wanted) {
    }
  }

  lemma ThenFinish(w: World, t: Tables, id: Id, h: Hold, o: Outcome)
    requires id !in w.calls && HasAccount(t, id)
    ensures var w' := DoFinish(w.(t := t, calls := w.calls[id := Holding(h)]), id, o);
      w'.t == Finish(t, id, AccountOf(t, id), h, o) && w'.calls == w.calls
  {
    assert w.calls[id := Holding(h)] - {id} == w.calls;
  }

  /** The three steps a call takes when nothing runs in between. */
  function CallSteps(c: Codecs, w: World, id: Id, wanted: Option<seq<string>>, granted: bool, signature: Option<seq<Byte>>): World
    requires CanList(w, id)
  {
    var held := DoReserve(DoList(w, id, wanted), id, granted);
    if CanFinish(held, id) then DoFinish(held, id, OutcomeFor(c, held, id, signature)) else held
  }

  /** Choosing, reserving and finishing with nothing in between is the call. */
  lemma CallIsThreeSteps(c: Codecs, w: World, id: Id, wanted: Option<seq<string>>, granted: bool, signature: Option<seq<Byte>>)
    requires CanList(w, id)
    ensures var w' := CallSteps(c, w, id, wanted, granted, signature);
      && w'.t == Construct(w.t, id, AccountOf(w.t, id), Row(w, id), c, granted, wanted, signature).0
      && w'.calls == w.calls
  {
    var k := AccountOf(w.t, id);
    var (t, h) := Reserve(w.t, id, k, granted, wanted);
    ListThenReserve(w, id, wanted, granted);
    ReserveKeepsRequest(w.t, id, k, granted, wanted);
    if h.Some? {
      ThenFinish(w, t, id, h.value, OutcomeOf(c, k.1, Row(w, id).to, Row(w, id).amount, h.value, signature));
    }
  }

  predicate SameLocks(us: map<string, Utxo>, us': map<string, Utxo>) {
    us'.Keys == us.Keys && forall op :: op in us ==> us'[op].lock == us[op].lock
  }

  ghost predicate SameCounts(ns: map<NonceKey, NonceRow>, ns': map<NonceKey, NonceRow>) {
    forall k :: NonceAt(ns', k).pending == NonceAt(ns, k).pending && NonceAt(ns', k).broadcast == NonceAt(ns, k).broadcast
  }

  lemma LockThenRestore(us: map<string, Utxo>, ops: seq<string>)
    requires AllFree(us, ops)
    ensures SameLocks(us, Restore(LockUtxos(us, ops), ops))
  {
    RelockAllAt(us, ops, Locked, None);
    RelockAllAt(LockUtxos(us, ops), ops, Free, Some(""));
  }

  lemma TakeThenRollback(ns: map<NonceKey, NonceRow>, k: NonceKey)
    ensures SameCounts(ns, RollbackPending(IncrementPending(ns, k), k, NonceAt(ns, k).pending))
  {
  }

  /** A failed reservation changes no lock and no counter. */
  lemma NoHoldNoTrace(w: World, id: Id, k: NonceKey, granted: bool, wanted: Option<seq<string>>)
    requires CountersOk(w) && Reserve(w.t, id, k, granted, wanted).1.None?
    ensures var t := Reserve(w.t, id, k, granted, wanted).0;
      SameLocks(w.t.utxos, t.utxos) && SameCounts(w.t.nonces, t.nonces)
  {
    if k.1 == Bitcoin {
      BitcoinRollbackIsIdle(w, k);
    }
  }

  /** Rolling back a reservation restores every lock and every counter. */
  lemma RollbackUndoesReserve(w: World, id: Id, k: NonceKey, granted: bool, wanted: Option<seq<string>>)
    requires CountersOk(w) && Reserve(w.t, id, k, granted, wanted).1.Some?
    ensures var (t, h) := Reserve(w.t, id, k, granted, wanted); var t' := RolledBack(t, k, h.value);
      SameLocks(w.t.utxos, t'.utxos) && SameCounts(w.t.nonces, t'.nonces)
  {
    if IsEvm(k.1) {
      TakeThenRollback(w.t.nonces, k);
    } else if k.1 == Bitcoin {
      LockThenRestore(w.t.utxos, wanted.value);
    }
  }

  /** A call that does not reach the signed stage leaves every coin's lock and
      every pending and broadcast counter as it found them. */
  lemma FailedCallLeavesNoTrace(c: Codecs, w: World, id: Id, granted: bool, wanted: Option<seq<string>>,
                                signature: Option<seq<Byte>>)
    requires CountersOk(w) && Signable(w.t, id)
    requires !Construct(w.t, id, AccountOf(w.t, id), Row(w, id), c, granted, wanted, signature).1
    ensures var t := Construct(w.t, id, AccountOf(w.t, id), Row(w, id), c, granted, wanted, signature).0;
      SameLocks(w.t.utxos, t.utxos) && SameCounts(w.t.nonces, t.nonces)
  {
    var k := AccountOf(w.t, id);
    var (t, h) := Reserve(w.t, id, k, granted, wanted);
    if h.None? {
      NoHoldNoTrace(w, id, k, granted, wanted);
    } else {
      RollbackUndoesReserve(w, id, k, granted, wanted);
    }
  }

  /** The condition on the counters holds in every reachable world. */
  lemma FailedCallInAnyRun(c: Codecs, steps: seq<Step>, id: Id, granted: bool, wanted: Option<seq<string>>,
                           signature: Option<seq<Byte>>)
    requires Signable(Run(START, steps).t, id)
    ensures var w := Run(START, steps);
      var (t, ok) := Construct(w.t, id, AccountOf(w.t, id), Row(w, id), c, granted, wanted, signature);
      !ok ==> SameLocks(w.t.utxos, t.utxos) && SameCounts(w.t.nonces, t.nonces)
  {
    var w := Run(START, steps);
    SagaBytes.RunCounts(START, steps);
    if !Construct(w.t, id, AccountOf(w.t, id), Row(w, id), c, granted, wanted, signature).1 {
      FailedCallLeavesNoTrace(c, w, id, granted, wanted, signature);
    }
  }
}
