/** The broadcast counter stays above every nonce that is out. */
module SagaCommits {
  import opened Text
  import opened Records
  import opened Withdrawals
  import opened Saga

  function BroadcastOf(w: World, k: NonceKey): int { NonceAt(w.t.nonces, k).broadcast }

  predicate Committed(w: World, id: Id) {
    HasAccount(w.t, id) && Row(w, id).stage in {Broadcast, Confirmed} && Row(w, id).nonce.Some? ==>
      Row(w, id).nonce.value < BroadcastOf(w, AccountOf(w.t, id))
  }

  ghost predicate Published(w: World) { Shape(w) && forall id :: Committed(w, id) }

  /** No broadcast counter goes down. */
  ghost predicate NoneDrops(ns: map<NonceKey, NonceRow>, ns': map<NonceKey, NonceRow>) {
    forall k :: NonceAt(ns', k).broadcast >= NonceAt(ns, k).broadcast
  }

  ghost predicate Commits(w: World, w': World, id: Id) { NoneDrops(w.t.nonces, w'.t.nonces) && Committed(w', id) }

  lemma RollbackDropsNone(t: Tables, k: NonceKey, h: Hold)
    ensures NoneDrops(t.nonces, RolledBack(t, k, h).nonces)
  {
  }

  lemma ReserveCommits(w: World, id: Id, granted: bool)
    requires CallOk(w, id) && RowOk(w, id) && Committed(w, id)
    ensures Commits(w, DoReserve(w, id, granted), id)
  {
    if Running(w, id) && IsEvm(AccountOf(w.t, id).1) {
    }
  }

  lemma FinishCommits(w: World, id: Id, o: Outcome)
    requires CallOk(w, id) && RowOk(w, id) && Committed(w, id)
    ensures Commits(w, DoFinish(w, id, o), id)
  {
    if CanFinish(w, id) {
      RollbackDropsNone(w.t, AccountOf(w.t, id), w.calls[id].hold);
    }
  }

  lemma RefusalCommits(w: World, id: Id)
    requires CallOk(w, id) && RowOk(w, id) && Committed(w, id)
    ensures Commits(w, DoBroadcast(w, id, None), id)
  {
    if Sendable(w.t, id) {
      RollbackDropsNone(w.t, AccountOf(w.t, id), HoldOn(Row(w, id)));
    }
  }

  lemma FailCommits(w: World, id: Id, reason: string)
    requires CallOk(w, id) && RowOk(w, id) && Committed(w, id)
    ensures Commits(w, DoFail(w, id, reason), id)
  {
    if HasAccount(w.t, id) {
      RollbackDropsNone(w.t, AccountOf(w.t, id), HoldOn(Row(w, id)).(ops := []));
    }
  }

  lemma DecideCommits(w: World, id: Id, v: Verdict)
    requires CallOk(w, id) && Committed(w, id)
    ensures Commits(w, DoDecide(w, id, v), id)
  {
    if Approves(v) {
    }
  }

  lemma ConfirmCommits(w: World, id: Id, hash: string)
    requires Committed(w, id)
    ensures Commits(w, DoConfirm(w, id, hash), id)
  {
  }

  lemma ReorgCommits(w: World, id: Id, ops: seq<string>)
    requires Committed(w, id)
    ensures Commits(w, DoReorg(w, id, ops), id)
  {
  }

  lemma StepCommits(w: World, s: Step)
    requires CallOk(w, IdOf(s)) && RowOk(w, IdOf(s)) && Committed(w, IdOf(s))
    ensures Commits(w, Next(w, s), IdOf(s))
  {
    match s
    case AddWallet(_, _) =>
    case SetWallet(_, _) =>
    case Track(_, _) =>
    case PruneStep(_) =>
    case OpenStep(id, r) =>
    case DecideStep(id, v) => DecideCommits(w, id, v);
    case ListStep(id, wanted) =>
    case ReserveStep(id, granted) => ReserveCommits(w, id, granted);
    case FinishStep(id, o) => FinishCommits(w, id, o);
    case BroadcastStep(id, txHash) =>
      if txHash.None? { RefusalCommits(w, id); }
    case ConfirmStep(id, hash) => ConfirmCommits(w, id, hash);
    case FailStep(id, reason) => FailCommits(w, id, reason);
    case ReorgStep(id, ops) => ReorgCommits(w, id, ops);
  }

  lemma StepKeepsPublished(w: World, s: Step)
    requires Published(w)
    ensures Published(Next(w, s)) && NoneDrops(w.t.nonces, Next(w, s).t.nonces)
  {
    var id, w' := IdOf(s), Next(w, s);
    assert CallOk(w, id) && RowOk(w, id) && Committed(w, id);
    StepKeepsShape(w, s);
    StepCommits(w, s);
    forall j | j != id ensures Committed(w', j) {
      assert RowOk(w, j) && Committed(w, j);
    }
  }

  /** In every run the broadcast counters only rise, and each is above the nonce
      of every broadcast or confirmed withdrawal of its account. */
  lemma {:induction false} BroadcastsAreCounted(w: World, steps: seq<Step>)
    requires Published(w)
    ensures Published(Run(w, steps)) && NoneDrops(w.t.nonces, Run(w, steps).t.nonces)
    decreases |steps|
  {
    if steps != [] {
      StepKeepsPublished(w, steps[0]);
      BroadcastsAreCounted(Next(w, steps[0]), steps[1..]);
    }
  }

  /** So from an empty store a nonce that is out is never at or above its
      account's broadcast counter. */
  lemma OutNoncesAreCounted(steps: seq<Step>, id: Id)
    ensures Committed(Run(START, steps), id)
  {
    BroadcastsAreCounted(START, steps);
  }
}
