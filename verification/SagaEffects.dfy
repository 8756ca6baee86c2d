/** What each step does to counters, coins and rows, said field by field. Every
    world of a run is counted (`EveryWorldIsCounted`), so this holds in all of them. */
module SagaEffects {
  import opened Text
  import opened Records
  import opened Withdrawals
  import opened Saga
  import opened SagaBytes
  import SagaOutpoints

  function Pending(w: World, k: NonceKey): int { if k in w.t.nonces then w.t.nonces[k].pending else 0 }

  function Out(w: World, k: NonceKey): int { if k in w.t.nonces then w.t.nonces[k].broadcast else 0 }

  predicate IsEvmChain(c: Chain) { c in {Ethereum, Polygon, Arbitrum, Base, Optimism} }

  // ----- what a step can leave alone or change -----

  ghost predicate CountersStay(w: World, w': World) {
    forall j :: Pending(w', j) == Pending(w, j) && Out(w', j) == Out(w, j)
  }

  /** The counters of `k` become `pending` and `out`; no others change. */
  ghost predicate CountersBecome(w: World, w': World, k: NonceKey, pending: int, out: int) {
    && Pending(w', k) == pending && Out(w', k) == out
    && forall j :: j != k ==> Pending(w', j) == Pending(w, j) && Out(w', j) == Out(w, j)
  }

  /** The latest nonce comes back; an earlier one does not. */
  ghost predicate ComesBack(w: World, w': World, k: NonceKey, n: int) {
    CountersBecome(w, w', k, if Pending(w, k) == n + 1 then n else Pending(w, k), Out(w, k))
  }

  predicate CoinsStay(w: World, w': World) { w'.t.utxos == w.t.utxos }

  /** The coins named before the first unknown one get the label, and the hash if one
      is given; nothing else about coins changes. */
  predicate CoinsBecome(w: World, w': World, ops: seq<string>, lock: LockState, hash: Option<string>) {
    && w'.t.utxos.Keys == w.t.utxos.Keys
    && forall op :: op in w.t.utxos ==>
         var u := w.t.utxos[op];
         w'.t.utxos[op] == if op in KnownPart(w.t.utxos.Keys, ops)
                           then Utxo(u.wallet, u.value, lock, if hash.Some? then hash.value else u.txHash)
                           else u
  }

  /** With every coin known, these are all of them. */
  lemma {:induction false} AllKnownAll(known: set<string>, ops: seq<string>)
    requires forall op :: op in ops ==> op in known
    ensures KnownPart(known, ops) == ops
  {
    if ops != [] {
      AllKnownAll(known, ops[1..]);
    }
  }

  /** Only this row changes, and to this. */
  predicate RowBecomes(w: World, w': World, id: Id, row: Withdrawal) {
    w'.t.withdrawals == w.t.withdrawals[id := row] && w'.t.wallets == w.t.wallets
  }

  lemma RelockBecomes(w: World, w': World, ops: seq<string>, lock: LockState, hash: Option<string>)
    requires w'.t.utxos == RelockAll(w.t.utxos, ops, lock, hash)
    ensures CoinsBecome(w, w', ops, lock, hash)
  {
    RelockKnownPart(w.t.utxos, ops, lock, hash);
    RelockAllAt(w.t.utxos, KnownPart(w.t.utxos.Keys, ops), lock, hash);
  }

  lemma RowSetTwice(rows: map<Id, Withdrawal>, id: Id, a: Withdrawal, b: Withdrawal)
    ensures rows[id := a][id := b] == rows[id := b]
  {
  }

  // ----- opening and deciding -----

  /** A request is stored if and only if its wallet exists and is neither paused nor
      retired, its id is new and its key is not in flight. */
  lemma OpensIff(w: World, id: Id, r: Request)
    ensures var w' := Next(w, OpenStep(id, r));
      var opens := r.wallet in w.t.wallets && w.t.wallets[r.wallet].state !in {Paused, Retired} && id !in w.t.withdrawals
        && (r.wallet + "|" + r.to + "|" + r.amount + "|" + r.asset) !in w.t.inflight;
      && (opens ==>
            && RowBecomes(w, w', id, Withdrawal(r.wallet, r.to, r.asset, r.amount, Stage.Pending, "", "", "", None, [], []))
            && w'.calls == w.calls[id := Deciding] && w'.t.utxos == w.t.utxos && w'.t.nonces == w.t.nonces)
      && (!opens ==> w' == w)
  {
    if Opens(w.t, id, r) {
      OpenedRow(w, id, r);
    }
  }

  lemma OpenedRow(w: World, id: Id, r: Request)
    requires Opens(w.t, id, r)
    ensures var w' := DoOpen(w, id, r);
      && RowBecomes(w, w', id, Withdrawal(r.wallet, r.to, r.asset, r.amount, Stage.Pending, "", "", "", None, [], []))
      && w'.calls == w.calls[id := Deciding] && w'.t.utxos == w.t.utxos && w'.t.nonces == w.t.nonces
  {
  }

  /** Policy approves with a decision that says so and no error; anything else fails
      the withdrawal with the reason policy gave, if any. */
  lemma DecidesIff(w: World, id: Id, v: Verdict)
    requires Running(w, id) && w.calls[id].Deciding?
    ensures var w' := Next(w, DecideStep(id, v)); var row := Row(w, id);
      var reason := if v.decision.Some? && v.decision.value.reason != "" then v.decision.value.reason else "policy_error";
      var decision := if v.decision.Some? && v.decision.value.id != "" then v.decision.value.id else row.decision;
      && RowBecomes(w, w', id,
           if !v.failed && v.decision.Some? && v.decision.value.approved then row.(stage := Whitelisted, decision := decision)
           else row.(stage := Failed, reason := reason, decision := decision))
      && w'.calls == w.calls - {id} && w'.t.utxos == w.t.utxos && w'.t.nonces == w.t.nonces
  {
  }

  // ----- choosing and reserving -----

  /** A signing call starts if and only if the withdrawal is approved and has no call
      running. */
  lemma StartsIff(w: World, id: Id, wanted: Option<seq<string>>)
    requires HasAccount(w.t, id)
    ensures var w' := Next(w, ListStep(id, wanted));
      if Row(w, id).stage == Whitelisted && id !in w.calls
      then w'.calls == w.calls[id := Choosing(wanted)] && w'.t == w.t else w' == w
  {
  }

  /** A granted reservation takes the pending nonce and raises the counter by one; a
      refused one takes nothing. */
  lemma ReservesNonce(w: World, id: Id, granted: bool)
    requires Running(w, id) && w.calls[id].Choosing? && IsEvmChain(AccountOf(w.t, id).1)
    ensures var w' := Next(w, ReserveStep(id, granted)); var k := AccountOf(w.t, id); var n := Pending(w, k);
      && CoinsStay(w, w')
      && (granted ==>
            && RowBecomes(w, w', id, Row(w, id).(nonce := Some(n)))
            && CountersBecome(w, w', k, n + 1, Out(w, k))
            && w'.calls == w.calls[id := Holding(Hold(n, []))])
      && (!granted ==> w'.t == w.t && w'.calls == w.calls - {id})
  {
  }

  /** The wanted coins are locked, all or none: all exactly when all are free. */
  lemma ReservesCoins(w: World, id: Id, granted: bool)
    requires Counted(w) && Running(w, id) && w.calls[id].Choosing? && AccountOf(w.t, id).1 == Bitcoin
    ensures var w' := Next(w, ReserveStep(id, granted)); var wanted := w.calls[id].wanted;
      var free := wanted.Some? && forall op :: op in wanted.value ==> op in w.t.utxos && w.t.utxos[op].lock == Free;
      && CountersStay(w, w')
      && (free ==>
            && RowBecomes(w, w', id, Row(w, id).(outpoints := wanted.value))
            && KnownPart(w.t.utxos.Keys, wanted.value) == wanted.value
            && CoinsBecome(w, w', wanted.value, Locked, None)
            && w'.calls == w.calls[id := Holding(Hold(-1, wanted.value))])
      && (!free ==> w'.t == w.t && w'.calls == w.calls - {id})
  {
    var wanted := w.calls[id].wanted;
    if CanTake(w.t.utxos, wanted) {
      AllKnownAll(w.t.utxos.Keys, wanted.value);
      RelockBecomes(w, Next(w, ReserveStep(id, granted)), wanted.value, Locked, None);
    } else {
      assert RollbackPending(w.t.nonces, AccountOf(w.t, id), -1) == w.t.nonces;
    }
  }

  /** On Solana there is nothing to reserve. */
  lemma ReservesNothing(w: World, id: Id, granted: bool)
    requires Running(w, id) && w.calls[id].Choosing? && AccountOf(w.t, id).1 == Solana
    ensures var w' := Next(w, ReserveStep(id, granted));
      w'.t == w.t && w'.calls == w.calls[id := Holding(Hold(-1, []))]
  {
  }

  // ----- finishing -----

  /** What giving up a call leaves on the row. */
  function GivenUp(row: Withdrawal, o: Outcome): Withdrawal {
    match o
    case NotBuilt => row
    case NotSigned => row.(stage := Failed, reason := "sign_failed")
    case NotAssembled => row.(stage := Failed, reason := "assemble_failed")
    case Assembled(bytes, _) => row.(stage := Signed, signedTx := bytes)
  }

  /** A call ends signed with its bytes stored and nothing given back, or gives back
      the nonce or the coins it held. */
  lemma CallEnds(w: World, id: Id, o: Outcome)
    requires Counted(w) && CanFinish(w, id)
    ensures var w' := Next(w, FinishStep(id, o)); var k, h := AccountOf(w.t, id), w.calls[id].hold;
      && RowBecomes(w, w', id, GivenUp(Row(w, id), o)) && w'.calls == w.calls - {id}
      && (o.Assembled? ==> CountersStay(w, w') && CoinsStay(w, w') && w'.signings == w.signings[id := o.signing])
      && (!o.Assembled? ==>
            && w'.signings == w.signings
            && (if IsEvmChain(k.1) then ComesBack(w, w', k, h.nonce) else CountersStay(w, w'))
            && CoinsBecome(w, w', h.ops, Free, Some("")))
  {
    EndsRow(w, id, o);
    if !o.Assembled? {
      GivingUpGivesBack(w, id, o);
    }
  }

  lemma GivingUpGivesBack(w: World, id: Id, o: Outcome)
    requires Counted(w) && CanFinish(w, id) && !o.Assembled?
    ensures var w' := DoFinish(w, id, o); var k, h := AccountOf(w.t, id), w.calls[id].hold;
      && (if IsEvmChain(k.1) then ComesBack(w, w', k, h.nonce) else CountersStay(w, w'))
      && CoinsBecome(w, w', h.ops, Free, Some(""))
  {
    assert CallOk(w, id) && NonceOk(w, id);
    RelockBecomes(w, DoFinish(w, id, o), w.calls[id].hold.ops, Free, Some(""));
  }

  lemma EndsRow(w: World, id: Id, o: Outcome)
    requires CanFinish(w, id)
    ensures RowBecomes(w, DoFinish(w, id, o), id, GivenUp(Row(w, id), o))
  {
    if o.Assembled? {
      RowSetTwice(w.t.withdrawals, id, Row(w, id).(signedTx := o.bytes), GivenUp(Row(w, id), o));
    }
  }

  // ----- broadcasting -----

  /** A refused broadcast fails the withdrawal and gives back what it had: on an EVM
      chain its nonce if that is the latest, on bitcoin its coins. */
  lemma RefusalGivesBack(w: World, id: Id)
    requires Counted(w) && HasAccount(w.t, id) && Row(w, id).stage == Signed && Row(w, id).signedTx != []
    ensures var w' := Next(w, BroadcastStep(id, None)); var k, row := AccountOf(w.t, id), Row(w, id);
      && RowBecomes(w, w', id, row.(stage := Failed, reason := "broadcast_failed")) && w'.calls == w.calls
      && (IsEvmChain(k.1) ==> row.nonce.Some? && ComesBack(w, w', k, row.nonce.value) && CoinsStay(w, w'))
      && (k.1 == Bitcoin ==> CountersStay(w, w') && CoinsBecome(w, w', row.outpoints, Free, Some("")))
      && (!IsEvmChain(k.1) && k.1 != Bitcoin ==> CountersStay(w, w') && CoinsStay(w, w'))
  {
    assert RowOk(w, id) && NonceOk(w, id);
    RelockBecomes(w, Next(w, BroadcastStep(id, None)), Row(w, id).outpoints, Free, Some(""));
  }

  /** An accepted one settles: the broadcast counter rises to the nonce plus one if it
      is not there yet, and the coins are spent by the hash. */
  lemma AcceptanceSettles(w: World, id: Id, hash: string)
    requires Counted(w) && HasAccount(w.t, id) && Row(w, id).stage == Signed && Row(w, id).signedTx != []
    ensures var w' := Next(w, BroadcastStep(id, Some(hash))); var k, row := AccountOf(w.t, id), Row(w, id);
      && RowBecomes(w, w', id, row.(stage := Broadcast, txHash := if hash != "" then hash else row.txHash))
      && w'.calls == w.calls
      && (IsEvmChain(k.1) ==>
            && row.nonce.Some? && CoinsStay(w, w')
            && CountersBecome(w, w', k, Pending(w, k),
                 if row.nonce.value + 1 > Out(w, k) then row.nonce.value + 1 else Out(w, k)))
      && (k.1 == Bitcoin ==> CountersStay(w, w') && CoinsBecome(w, w', row.outpoints, Spent, Some(hash)))
      && (!IsEvmChain(k.1) && k.1 != Bitcoin ==> CountersStay(w, w') && CoinsStay(w, w'))
  {
    assert RowOk(w, id) && NonceOk(w, id);
    if AccountOf(w.t, id).1 == Bitcoin {
      RelockBecomes(w, Next(w, BroadcastStep(id, Some(hash))), Row(w, id).outpoints, Spent, Some(hash));
    }
  }

  /** Anything but a signed withdrawal with bytes is not sent and not touched. */
  lemma OnlySignedIsSent(w: World, id: Id, txHash: Option<string>)
    requires HasAccount(w.t, id) && (Row(w, id).stage != Signed || Row(w, id).signedTx == [])
    ensures Next(w, BroadcastStep(id, txHash)) == w
  {
  }

  // ----- confirming, failing, reorganising -----

  lemma ConfirmsIff(w: World, id: Id, hash: string)
    requires id in w.t.withdrawals
    ensures var w' := Next(w, ConfirmStep(id, hash)); var row := Row(w, id);
      if row.stage == Broadcast
      then RowBecomes(w, w', id, row.(stage := Confirmed, txHash := if hash != "" then hash else row.txHash))
           && w'.t.utxos == w.t.utxos && w'.t.nonces == w.t.nonces && w'.calls == w.calls
      else w' == w
  {
  }

  /** `Fail` gives back the nonce on the row if it is the latest, and no coin. */
  lemma FailGivesBack(w: World, id: Id, reason: string)
    requires Counted(w) && HasAccount(w.t, id)
    ensures var w' := Next(w, FailStep(id, reason)); var k, row := AccountOf(w.t, id), Row(w, id);
      && RowBecomes(w, w', id, row.(stage := Failed, reason := if reason != "" then reason else row.reason))
      && CoinsStay(w, w') && w'.calls == w.calls
      && (if row.nonce.Some? then ComesBack(w, w', k, row.nonce.value) else CountersStay(w, w'))
  {
    assert RowOk(w, id) && NonceOk(w, id);
  }

  /** A reorganisation frees the named coins up to the first unknown one; with all of
      them known it also demotes a confirmed withdrawal. */
  lemma ReorgFreesAndDemotes(w: World, id: Id, ops: seq<string>)
    requires id in w.t.withdrawals
    ensures var w' := Next(w, ReorgStep(id, ops)); var row := Row(w, id);
      && CoinsBecome(w, w', ops, Free, Some("")) && w'.t.nonces == w.t.nonces && w'.calls == w.calls
      && RowBecomes(w, w', id,
           if row.stage == Confirmed && forall op :: op in ops ==> op in w.t.utxos
           then row.(stage := Broadcast, reason := "reorg") else row)
  {
    RelockBecomes(w, Next(w, ReorgStep(id, ops)), ops, Free, Some(""));
    assert w.t.withdrawals[id := Row(w, id)] == w.t.withdrawals;
  }

  // ----- every run -----

  lemma EveryWorldIsCounted(steps: seq<Step>)
    ensures Counted(Run(START, steps))
  {
    RunCounts(START, steps);
  }

  /** In every run: after a refused broadcast of an EVM withdrawal with nonce n, the
      pending counter is n if it was n + 1, and what it was otherwise. */
  lemma RefusedNonceComesBack(steps: seq<Step>, id: Id)
    requires var w := Run(START, steps);
      && HasAccount(w.t, id) && IsEvmChain(AccountOf(w.t, id).1)
      && Row(w, id).stage == Signed && Row(w, id).signedTx != []
    ensures var w := Run(START, steps); var w' := Run(START, steps + [BroadcastStep(id, None)]);
      var k, row := AccountOf(w.t, id), Row(w, id);
      && row.nonce.Some? && 0 <= row.nonce.value
      && id in w'.t.withdrawals && Row(w', id).stage == Failed
      && Pending(w', k) == (if Pending(w, k) == row.nonce.value + 1 then row.nonce.value else Pending(w, k))
      && Out(w', k) == Out(w, k)
      && forall j :: j != k ==> Pending(w', j) == Pending(w, j) && Out(w', j) == Out(w, j)
  {
    var w := Run(START, steps);
    EveryWorldIsCounted(steps);
    RefusalGivesBack(w, id);
    assert NonceOk(w, id);
    RunOneMore(START, steps, BroadcastStep(id, None));
  }

  lemma {:induction false} RunOneMore(w: World, steps: seq<Step>, s: Step)
    ensures Run(w, steps + [s]) == Next(Run(w, steps), s)
    decreases |steps|
  {
    if steps == [] {
      assert [s][1..] == [];
    } else {
      assert (steps + [s])[1..] == steps[1..] + [s];
      RunOneMore(Next(w, steps[0]), steps[1..], s);
    }
  }

  /** In every run that takes no held coin away: after a refused broadcast of a bitcoin
      withdrawal exactly its own coins have become free. */
  lemma RefusedCoinsComeBack(steps: seq<Step>, id: Id, op: string)
    requires SagaOutpoints.SteadyRun(START, steps)
    requires var w := Run(START, steps);
      && HasAccount(w.t, id) && AccountOf(w.t, id).1 == Bitcoin && op in w.t.utxos
      && Row(w, id).stage == Signed && Row(w, id).signedTx != []
    ensures var w := Run(START, steps); var w' := Run(START, steps + [BroadcastStep(id, None)]);
      && id in w'.t.withdrawals && Row(w', id).stage == Failed && op in w'.t.utxos
      && (op in Row(w, id).outpoints ==> w.t.utxos[op].lock == Locked && w'.t.utxos[op].lock == Free)
      && (op !in Row(w, id).outpoints ==> w'.t.utxos[op] == w.t.utxos[op])
      && CountersStay(w, w')
  {
    var w := Run(START, steps);
    EveryWorldIsCounted(steps);
    RefusalGivesBack(w, id);
    RunOneMore(START, steps, BroadcastStep(id, None));
    forall o | o in Row(w, id).outpoints ensures o in w.t.utxos && w.t.utxos[o].lock == Locked {
      SagaOutpoints.NoDoubleSpend(steps, id, o);
    }
    AllKnownAll(w.t.utxos.Keys, Row(w, id).outpoints);
  }
}
