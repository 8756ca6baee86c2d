/** All withdrawals at once. Calls interleave between choosing coins, reserving,
    and signing; a withdrawal can be failed or reorganised while its own call is
    running, but it has one signing call at a time. Policy, coin choice, building,
    signer and gateway come out as they like: a step carries their outcome. */
module Saga {
  import opened Text
  import opened Bytes
  import opened Records
  import opened Withdrawals

  /** How far a running call has got: waiting for policy, about to reserve, or
      holding a reservation. */
  datatype Call = Deciding | Choosing(wanted: Option<seq<string>>) | Holding(hold: Hold)

  /** Bytes handed to the gateway, and whether it took them. */
  datatype Transmission = Transmission(id: Id, bytes: seq<Byte>, accepted: bool)

  /** The tables, the running calls, which withdrawals policy approved, what the
      signer was asked and answered for the stored bytes, and everything the
      gateway was given. */
  datatype World = World(t: Tables, calls: map<Id, Call>, approved: set<Id>, signings: map<Id, Signing>,
                         sent: seq<Transmission>)

  const START := World(EMPTY, map[], {}, map[], [])

  datatype Step =
    | AddWallet(id: Id, wallet: Wallet)
    | SetWallet(id: Id, state: WalletState)
    | Track(op: string, u: Utxo)
    | PruneStep(ops: seq<string>)
    | OpenStep(id: Id, r: Request)
    | DecideStep(id: Id, v: Verdict)
    | ListStep(id: Id, wanted: Option<seq<string>>)
    | ReserveStep(id: Id, granted: bool)
    | FinishStep(id: Id, o: Outcome)
    | BroadcastStep(id: Id, txHash: Option<string>)
    | ConfirmStep(id: Id, hash: string)
    | FailStep(id: Id, reason: string)
    | ReorgStep(id: Id, ops: seq<string>)

  // ----- steps -----

  predicate Running(w: World, id: Id) { id in w.calls && HasAccount(w.t, id) }

  function Row(w: World, id: Id): Withdrawal
    requires id in w.t.withdrawals
  {
    w.t.withdrawals[id]
  }

  predicate CanList(w: World, id: Id) { id !in w.calls && Signable(w.t, id) }

  function DoOpen(w: World, id: Id, r: Request): World {
    if Opens(w.t, id, r) then w.(t := Opened(w.t, id, r), calls := w.calls[id := Deciding]) else w
  }

  function DoDecide(w: World, id: Id, v: Verdict): World {
    if Running(w, id) && w.calls[id].Deciding?
    then w.(t := Decided(w.t, id, v), calls := w.calls - {id}, approved := if Approves(v) then w.approved + {id} else w.approved)
    else w
  }

  function DoList(w: World, id: Id, wanted: Option<seq<string>>): World {
    if CanList(w, id) then w.(calls := w.calls[id := Choosing(wanted)]) else w
  }

  function DoReserve(w: World, id: Id, granted: bool): World {
    if Running(w, id) && w.calls[id].Choosing? then
      var (t, h) := Reserve(w.t, id, AccountOf(w.t, id), granted, w.calls[id].wanted);
      w.(t := t, calls := if h.Some? then w.calls[id := Holding(h.value)] else w.calls - {id})
    else w
  }

  predicate CanFinish(w: World, id: Id) { Running(w, id) && w.calls[id].Holding? }

  function DoFinish(w: World, id: Id, o: Outcome): World {
    if CanFinish(w, id)
    then w.(t := Finish(w.t, id, AccountOf(w.t, id), w.calls[id].hold, o), calls := w.calls - {id},
            signings := if o.Assembled? then w.signings[id := o.signing] else w.signings)
    else w
  }

  function DoBroadcast(w: World, id: Id, txHash: Option<string>): World {
    if Sendable(w.t, id)
    then w.(t := AfterDelivery(w.t, id, AccountOf(w.t, id), Row(w, id), txHash),
            sent := w.sent + [Transmission(id, Row(w, id).signedTx, txHash.Some?)])
    else w
  }

  function DoConfirm(w: World, id: Id, hash: string): World {
    w.(t := ConfirmedTx(w.t, id, hash))
  }

  function DoFail(w: World, id: Id, reason: string): World {
    if HasAccount(w.t, id) then w.(t := FailedTx(w.t, id, reason)) else w
  }

  function DoReorg(w: World, id: Id, ops: seq<string>): World {
    if id in w.t.withdrawals then w.(t := Reorged(w.t, id, ops)) else w
  }

  function Next(w: World, s: Step): World {
    match s
    case AddWallet(id, x) => if id in w.t.wallets then w else w.(t := w.t.(wallets := w.t.wallets[id := x]))
    case SetWallet(id, state) => w.(t := w.t.(wallets := SetWalletState(w.t.wallets, id, state)))
    case Track(op, u) => w.(t := w.t.(utxos := InsertUtxo(w.t.utxos, op, u)))
    case PruneStep(ops) => w.(t := w.t.(utxos := Prune(w.t.utxos, ops)))
    case OpenStep(id, r) => DoOpen(w, id, r)
    case DecideStep(id, v) => DoDecide(w, id, v)
    case ListStep(id, wanted) => DoList(w, id, wanted)
    case ReserveStep(id, granted) => DoReserve(w, id, granted)
    case FinishStep(id, o) => DoFinish(w, id, o)
    case BroadcastStep(id, txHash) => DoBroadcast(w, id, txHash)
    case ConfirmStep(id, hash) => DoConfirm(w, id, hash)
    case FailStep(id, reason) => DoFail(w, id, reason)
    case ReorgStep(id, ops) => DoReorg(w, id, ops)
  }

  function Run(w: World, steps: seq<Step>): World
    decreases |steps|
  {
    if steps == [] then w else Run(Next(w, steps[0]), steps[1..])
  }

  /** A step that is given an id leaves every other row and call alone. */
  ghost predicate Others(w: World, w': World, id: Id) {
    && (forall j :: j != id ==> (j in w.t.withdrawals <==> j in w'.t.withdrawals))
    && (forall j :: j != id && j in w.t.withdrawals ==> w'.t.withdrawals[j] == w.t.withdrawals[j])
    && (forall j :: j != id ==> (j in w.calls <==> j in w'.calls))
    && (forall j :: j != id && j in w.calls ==> w'.calls[j] == w.calls[j])
    && (forall j :: j != id && j in w.signings ==> j in w'.signings && w'.signings[j] == w.signings[j])
  }

  // ----- what every running call and every row look like -----

  predicate HoldFits(k: NonceKey, row: Withdrawal, h: Hold) {
    if IsEvm(k.1) then h.ops == [] && row.nonce == Some(h.nonce)
    else h.nonce == -1 && row.outpoints == h.ops
  }

  /** A running call found its row in the right stage; `Fail` may have hit it since. */
  predicate CallOk(w: World, id: Id) {
    id in w.calls ==>
      && HasAccount(w.t, id)
      && match w.calls[id]
         case Deciding => Row(w, id).stage in {Pending, Failed}
         case Choosing(_) => Row(w, id).stage in {Whitelisted, Failed}
         case Holding(h) => Row(w, id).stage in {Whitelisted, Failed} && HoldFits(AccountOf(w.t, id), Row(w, id), h)
  }

  predicate RowOk(w: World, id: Id) {
    id in w.t.withdrawals ==>
      && HasAccount(w.t, id)
      && (Row(w, id).outpoints != [] ==> AccountOf(w.t, id).1 == Bitcoin)
      && (Row(w, id).nonce.Some? ==> IsEvm(AccountOf(w.t, id).1))
  }

  ghost predicate Shape(w: World) {
    (forall id :: CallOk(w, id)) && (forall id :: RowOk(w, id))
  }

  /** Wallets stay and keep their chain. */
  predicate ChainsStay(w: World, w': World) {
    forall x :: x in w.t.wallets ==> x in w'.t.wallets && w'.t.wallets[x].chain == w.t.wallets[x].chain
  }

  /** A step on one withdrawal leaves the others alone and its own row in shape. */
  ghost predicate Local(w: World, w': World, id: Id) {
    Others(w, w', id) && ChainsStay(w, w') && CallOk(w', id) && RowOk(w', id)
  }

  lemma ShapeFromOne(w: World, w': World, id: Id)
    requires Shape(w) && Local(w, w', id)
    ensures Shape(w')
  {
    forall j | j != id ensures CallOk(w', j) && RowOk(w', j) {
      assert CallOk(w, j) && RowOk(w, j);
    }
  }

  lemma OpenIsLocal(w: World, id: Id, r: Request)
    requires CallOk(w, id) && RowOk(w, id)
    ensures Local(w, DoOpen(w, id, r), id)
  {
  }

  lemma DecideIsLocal(w: World, id: Id, v: Verdict)
    requires CallOk(w, id) && RowOk(w, id)
    ensures Local(w, DoDecide(w, id, v), id)
  {
    if Approves(v) {
    }
  }

  lemma ListIsLocal(w: World, id: Id, wanted: Option<seq<string>>)
    requires CallOk(w, id) && RowOk(w, id)
    ensures Local(w, DoList(w, id, wanted), id)
  {
  }

  lemma ReserveIsLocal(w: World, id: Id, granted: bool)
    requires CallOk(w, id) && RowOk(w, id)
    ensures Local(w, DoReserve(w, id, granted), id)
  {
    if Running(w, id) && w.calls[id].Choosing? {
      if IsEvm(AccountOf(w.t, id).1) {
      } else if CanTake(w.t.utxos, w.calls[id].wanted) {
      }
    }
  }

  lemma FinishIsLocal(w: World, id: Id, o: Outcome)
    requires CallOk(w, id) && RowOk(w, id)
    ensures Local(w, DoFinish(w, id, o), id)
  {
    if CanFinish(w, id) {
      match o
      case NotBuilt =>
      case NotSigned =>
      case NotAssembled =>
      case Assembled(_, _) =>
    }
  }

  lemma BroadcastIsLocal(w: World, id: Id, txHash: Option<string>)
    requires CallOk(w, id) && RowOk(w, id)
    ensures Local(w, DoBroadcast(w, id, txHash), id)
  {
  }

  lemma FailIsLocal(w: World, id: Id, reason: string)
    requires CallOk(w, id) && RowOk(w, id)
    ensures Local(w, DoFail(w, id, reason), id)
  {
  }

  lemma ReorgIsLocal(w: World, id: Id, ops: seq<string>)
    requires CallOk(w, id) && RowOk(w, id)
    ensures Local(w, DoReorg(w, id, ops), id)
  {
  }

  lemma ConfirmIsLocal(w: World, id: Id, hash: string)
    requires CallOk(w, id) && RowOk(w, id)
    ensures Local(w, DoConfirm(w, id, hash), id)
  {
  }

  /** The withdrawal a step is about; the wallet and coin steps are about none. */
  function IdOf(s: Step): Id {
    if s.AddWallet? || s.SetWallet? || s.Track? || s.PruneStep? then "" else s.id
  }

  lemma WalletStepIsLocal(w: World, s: Step)
    requires (s.AddWallet? || s.SetWallet?) && CallOk(w, "") && RowOk(w, "")
    ensures Local(w, Next(w, s), "")
  {
    if s.AddWallet? {
    }
  }

  lemma CoinStepIsLocal(w: World, s: Step)
    requires (s.Track? || s.PruneStep?) && CallOk(w, "") && RowOk(w, "")
    ensures Local(w, Next(w, s), "")
  {
  }

  /** The steps of a call. */
  predicate IsCallStep(s: Step) { s.OpenStep? || s.DecideStep? || s.ListStep? || s.ReserveStep? || s.FinishStep? }

  lemma CallStepIsLocal(w: World, s: Step)
    requires IsCallStep(s) && CallOk(w, s.id) && RowOk(w, s.id)
    ensures Local(w, Next(w, s), s.id)
  {
    if s.OpenStep? {
      OpenIsLocal(w, s.id, s.r);
    } else if s.DecideStep? {
      DecideIsLocal(w, s.id, s.v);
    } else if s.ListStep? {
      ListIsLocal(w, s.id, s.wanted);
    } else if s.ReserveStep? {
      ReserveIsLocal(w, s.id, s.granted);
    } else {
      FinishIsLocal(w, s.id, s.o);
    }
  }

  lemma RowStepIsLocal(w: World, s: Step)
    requires (s.BroadcastStep? || s.ConfirmStep? || s.FailStep? || s.ReorgStep?) && CallOk(w, s.id) && RowOk(w, s.id)
    ensures Local(w, Next(w, s), s.id)
  {
    if s.BroadcastStep? {
      BroadcastIsLocal(w, s.id, s.txHash);
    } else if s.ConfirmStep? {
      ConfirmIsLocal(w, s.id, s.hash);
    } else if s.FailStep? {
      FailIsLocal(w, s.id, s.reason);
    } else {
      ReorgIsLocal(w, s.id, s.ops);
    }
  }

  lemma StepIsLocal(w: World, s: Step)
    requires CallOk(w, IdOf(s)) && RowOk(w, IdOf(s))
    ensures Local(w, Next(w, s), IdOf(s))
  {
    if IsCallStep(s) {
      CallStepIsLocal(w, s);
    } else if s.AddWallet? || s.SetWallet? {
      WalletStepIsLocal(w, s);
    } else if s.Track? || s.PruneStep? {
      CoinStepIsLocal(w, s);
    } else {
      RowStepIsLocal(w, s);
    }
  }

  lemma StepKeepsShape(w: World, s: Step)
    requires Shape(w)
    ensures Local(w, Next(w, s), IdOf(s)) && Shape(Next(w, s))
  {
    assert CallOk(w, IdOf(s)) && RowOk(w, IdOf(s));
    StepIsLocal(w, s);
    ShapeFromOne(w, Next(w, s), IdOf(s));
  }
}
