/** Transactions of the in-memory store: the outermost one snapshots every
    record and restores the snapshot when its body fails; nested ones do not. */
module Transactions {
  import opened Bytes
  import opened Records
  import opened MemStore
  import opened Vaults

  /** The store's writing operations, and a transaction around a list of them
      that ends in an error or not. */
  datatype Op =
    | CreateWalletOp(id: Id, wallet: Wallet)
    | WalletStateOp(id: Id, state: WalletState)
    | InsertAddressOp(id: Id, address: Address)
    | DeprecateOp(id: Id)
    | ReceiveOp(id: Id)
    | UpsertBalanceOp(bk: BalanceKey, balance: Balance)
    | RecordEventOp(key: string)
    | InsertUtxoOp(op: string, utxo: Utxo)
    | LockOp(ops: seq<string>)
    | SpendOp(ops: seq<string>, txHash: string)
    | RestoreOp(ops: seq<string>)
    | PruneOp(ops: seq<string>)
    | UpsertNonceOp(nk: NonceKey, counters: NonceRow)
    | IncrementOp(nk: NonceKey)
    | AdvanceOp(nk: NonceKey, nonce: int)
    | RollbackOp(nk: NonceKey, nonce: int)
    | CreateOp(id: Id, row: Withdrawal)
    | StageOp(id: Id, stage: Stage, reason: string, txHash: string, decision: string)
    | NonceOp(id: Id, nonce: int)
    | OutpointsOp(id: Id, ops: seq<string>)
    | SignedTxOp(id: Id, bytes: seq<Byte>)
    | AppendOp(event: AuditRow)
    | DeliveredOp(id: Id)
    | NextSeqOp(id: Id)
    | BindKeyOp(id: Id, mapping: KeyMapping)
    | RotateKeyOp(id: Id, keyId: string, now: int, cooling: int)
    | ExpireOp(now: int)
    | FundOp(id: Id, funding: Funding)
    | FundStateOp(id: Id, funded: FundingState, batch: string)
    | TxOp(body: seq<Op>, fails: bool)

  /** All twelve tables. */
  datatype All = All(t: Tables, files: Files)

  predicate OnFiles(op: Op) { op.BindKeyOp? || op.RotateKeyOp? || op.ExpireOp? || op.FundOp? || op.FundStateOp? }

  function ApplyFiles(f: Files, op: Op): Files
    requires OnFiles(op)
  {
    match op
    case BindKeyOp(id, m) => if CanBind(At(f.keys, id), m) then f.(keys := f.keys[id := Bind(At(f.keys, id), m)]) else f
    case RotateKeyOp(id, k, now, cooling) => f.(keys := f.keys[id := Rotate(At(f.keys, id), k, now, cooling)])
    case ExpireOp(now) => f.(keys := ExpireEach(f.keys, now))
    case FundOp(id, x) => f.(fundings := RequestFunding(f.fundings, id, x))
    case FundStateOp(id, st, batch) => f.(fundings := SetFundingState(f.fundings, id, st, batch))
  }

  function ApplyTables(t: Tables, op: Op): Tables
    requires !OnFiles(op) && !op.TxOp?
  {
    match op
    case CreateWalletOp(id, w) => if id in t.wallets then t else t.(wallets := t.wallets[id := w])
    case WalletStateOp(id, st) => t.(wallets := SetWalletState(t.wallets, id, st))
    case InsertAddressOp(id, a) => t.(addresses := InsertAddress(t.addresses, id, a))
    case DeprecateOp(id) => t.(addresses := DeprecateAddress(t.addresses, id))
    case ReceiveOp(id) => t.(addresses := CountReceive(t.addresses, id))
    case UpsertBalanceOp(k, b) => t.(balances := t.balances[k := b])
    case RecordEventOp(key) => t.(balanceEvents := t.balanceEvents + {key})
    case InsertUtxoOp(o, u) => t.(utxos := InsertUtxo(t.utxos, o, u))
    case LockOp(ops) => t.(utxos := LockUtxos(t.utxos, ops))
    case SpendOp(ops, h) => t.(utxos := MarkSpent(t.utxos, ops, h))
    case RestoreOp(ops) => t.(utxos := Restore(t.utxos, ops))
    case PruneOp(ops) => t.(utxos := Prune(t.utxos, ops))
    case UpsertNonceOp(k, row) => t.(nonces := t.nonces[k := row])
    case IncrementOp(k) => t.(nonces := IncrementPending(t.nonces, k))
    case AdvanceOp(k, n) => t.(nonces := AdvanceBroadcast(t.nonces, k, n))
    case RollbackOp(k, n) => t.(nonces := RollbackPending(t.nonces, k, n))
    case CreateOp(id, w) => CreateWithdrawal(t, id, w)
    case StageOp(id, st, r, h, d) => UpdateStage(t, id, st, r, h, d)
    case NonceOp(id, n) => UpdateNonce(t, id, n)
    case OutpointsOp(id, ops) => UpdateOutpoints(t, id, ops)
    case SignedTxOp(id, b) => UpdateSignedTx(t, id, b)
    case AppendOp(row) => t.(auditOutbox := Append(t.auditOutbox, row))
    case DeliveredOp(id) => t.(auditOutbox := MarkDelivered(t.auditOutbox, id))
    case NextSeqOp(id) => t.(auditSeq := NextSeq(t.auditSeq, id))
  }

  /** What the tables look like afterwards, at a given lock depth: a failing
      transaction that is outermost leaves everything as it was, and one inside
      another leaves its writes for the outer one to decide about. */
  function Apply(x: All, op: Op, depth: nat): All
    decreases op
  {
    if op.TxOp? then if depth == 0 && op.fails then x else ApplyAll(x, op.body, depth + 1)
    else if OnFiles(op) then x.(files := ApplyFiles(x.files, op))
    else x.(t := ApplyTables(x.t, op))
  }

  function ApplyAll(x: All, ops: seq<Op>, depth: nat): All
    decreases ops
  {
    if ops == [] then x
    else ApplyAll(Apply(x, ops[0], depth), ops[1..], depth)
  }

  lemma {:induction false} ApplyConcat(t: All, a: seq<Op>, b: seq<Op>, depth: nat)
    ensures ApplyAll(t, a + b, depth) == ApplyAll(ApplyAll(t, a, depth), b, depth)
    decreases |a|
  {
    if a == [] {
      assert a + b == b;
    } else {
      assert (a + b)[1..] == a[1..] + b && (a + b)[0] == a[0];
      ApplyConcat(Apply(t, a[0], depth), a[1..], b, depth);
    }
  }

  lemma {:induction false} DepthIrrelevant(t: All, ops: seq<Op>, d: nat, e: nat)
    requires d > 0 && e > 0
    ensures ApplyAll(t, ops, d) == ApplyAll(t, ops, e)
    decreases ops
  {
    if ops != [] {
      if ops[0].TxOp? {
        DepthIrrelevant(t, ops[0].body, d + 1, e + 1);
      }
      assert Apply(t, ops[0], d) == Apply(t, ops[0], e);
      DepthIrrelevant(Apply(t, ops[0], d), ops[1..], d, e);
    }
  }

  /** Inside a transaction a nested one, failing or not, is its body inlined. */
  lemma NestedIsInlined(t: All, before: seq<Op>, body: seq<Op>, fails: bool, after: seq<Op>, depth: nat)
    requires depth > 0
    ensures ApplyAll(t, before + [TxOp(body, fails)] + after, depth) == ApplyAll(t, before + body + after, depth)
  {
    var u := ApplyAll(t, before, depth);
    ApplyConcat(t, before + [TxOp(body, fails)], after, depth);
    ApplyConcat(t, before, [TxOp(body, fails)], depth);
    ApplyConcat(t, before + body, after, depth);
    ApplyConcat(t, before, body, depth);
    DepthIrrelevant(u, body, depth, depth + 1);
    assert ApplyAll(u, [TxOp(body, fails)], depth) == Apply(u, TxOp(body, fails), depth);
  }

  predicate OnRegisters(op: Op) {
    op.CreateWalletOp? || op.WalletStateOp? || op.InsertAddressOp? || op.DeprecateOp? || op.ReceiveOp?
  }

  predicate OnLedger(op: Op) {
    op.UpsertBalanceOp? || op.RecordEventOp? || op.AppendOp? || op.DeliveredOp? || op.NextSeqOp?
  }

  predicate OnUtxos(op: Op) { op.InsertUtxoOp? || op.LockOp? || op.SpendOp? || op.RestoreOp? || op.PruneOp? }

  predicate OnNonces(op: Op) { op.UpsertNonceOp? || op.IncrementOp? || op.AdvanceOp? || op.RollbackOp? }

  method RunRegisters(db: Db, op: Op)
    requires db.Valid() && OnRegisters(op)
    modifies db.Repr
    ensures db.Valid() && fresh(db.Repr - old(db.Repr))
    ensures db.view == ApplyTables(old(db.view), op)
  {
    match op
    case CreateWalletOp(id, w) => var _ := db.CreateWallet(id, w);
    case WalletStateOp(id, st) => var _ := db.UpdateWalletState(id, st);
    case InsertAddressOp(id, a) => var _ := db.InsertAddress(id, a);
    case DeprecateOp(id) => var _ := db.DeprecateAddress(id);
    case ReceiveOp(id) => var _ := db.IncrementReceiveCount(id);
  }

  method RunLedger(db: Db, op: Op)
    requires db.Valid() && OnLedger(op)
    modifies db.Repr
    ensures db.Valid() && fresh(db.Repr - old(db.Repr))
    ensures db.view == ApplyTables(old(db.view), op)
  {
    match op
    case UpsertBalanceOp(k, b) => db.UpsertBalance(k, b);
    case RecordEventOp(key) => var _ := db.RecordBalanceEvent(key);
    case AppendOp(row) => var _ := db.AppendAuditEvent(row);
    case DeliveredOp(id) => var _ := db.MarkAuditDelivered(id);
    case NextSeqOp(id) => var _ := db.NextAuditSeq(id);
  }

  method RunUtxos(db: Db, op: Op)
    requires db.Valid() && OnUtxos(op)
    modifies db.Repr
    ensures db.Valid() && fresh(db.Repr - old(db.Repr))
    ensures db.view == ApplyTables(old(db.view), op)
  {
    match op
    case InsertUtxoOp(o, u) => var _ := db.InsertUTXO(o, u);
    case LockOp(ops) => var _ := db.LockUTXOs(ops);
    case SpendOp(ops, h) => var _ := db.MarkUTXOsSpent(ops, h);
    case RestoreOp(ops) => var _ := db.RestoreUTXOs(ops);
    case PruneOp(ops) => db.PruneUTXOs(ops);
  }

  method RunNonces(db: Db, op: Op)
    requires db.Valid() && OnNonces(op)
    modifies db.Repr
    ensures db.Valid() && fresh(db.Repr - old(db.Repr))
    ensures db.view == ApplyTables(old(db.view), op)
  {
    match op
    case UpsertNonceOp(k, row) => db.UpsertNonce(k, row);
    case IncrementOp(k) => var _ := db.IncrementPendingNonce(k);
    case AdvanceOp(k, n) => db.AdvanceBroadcastNonce(k, n);
    case RollbackOp(k, n) => var _ := db.RollbackPendingNonce(k, n);
  }

  method RunRow(db: Db, op: Op)
    requires db.Valid() && !OnRegisters(op) && !OnLedger(op) && !OnUtxos(op) && !OnNonces(op) && !OnFiles(op) && !op.TxOp?
    modifies db.Repr
    ensures db.Valid() && fresh(db.Repr - old(db.Repr))
    ensures db.view == ApplyTables(old(db.view), op)
  {
    match op
    case CreateOp(id, w) => var _ := db.CreateWithdrawal(id, w);
    case StageOp(id, st, r, h, d) => var _ := db.UpdateWithdrawalState(id, st, r, h, d);
    case NonceOp(id, n) => var _ := db.UpdateWithdrawalNonce(id, n);
    case OutpointsOp(id, ops) => var _ := db.UpdateWithdrawalOutpoints(id, ops);
    case SignedTxOp(id, b) => var _ := db.UpdateWithdrawalSignedTx(id, b);
  }

  method RunOn(db: Db, op: Op)
    requires db.Valid() && !OnFiles(op) && !op.TxOp?
    modifies db.Repr
    ensures db.Valid() && fresh(db.Repr - old(db.Repr))
    ensures db.view == ApplyTables(old(db.view), op)
  {
    if OnRegisters(op) {
      RunRegisters(db, op);
    } else if OnLedger(op) {
      RunLedger(db, op);
    } else if OnUtxos(op) {
      RunUtxos(db, op);
    } else if OnNonces(op) {
      RunNonces(db, op);
    } else {
      RunRow(db, op);
    }
  }

  method RunFiles(v: Vault, op: Op)
    requires v.Valid() && OnFiles(op)
    modifies v.Repr
    ensures v.Valid() && fresh(v.Repr - old(v.Repr))
    ensures v.files == ApplyFiles(old(v.files), op)
  {
    match op
    case BindKeyOp(id, m) => var _ := v.BindKeyMapping(id, m);
    case RotateKeyOp(id, k, now, cooling) => v.RotateKeyMapping(id, k, now, cooling);
    case ExpireOp(now) => v.ExpireCooling(now);
    case FundOp(id, x) => var _ := v.CreateFundingRequest(id, x);
    case FundStateOp(id, st, batch) => var _ := v.UpdateFundingState(id, st, batch);
  }

  class Store {
    /** The live tables. */
    var live: Db
    var vault: Vault
    /** How many times the running goroutine holds the store lock. */
    var depth: nat

    ghost var Repr: set<object>

    ghost predicate Valid()
      reads this, Repr
    {
      && this in Repr && live in Repr && live.Repr <= Repr && this !in live.Repr && live.Valid()
      && vault in Repr && vault.Repr <= Repr && this !in vault.Repr && vault.Valid() && live.Repr !! vault.Repr
    }

    ghost function Contents(): All
      reads this, live, vault
    {
      All(live.view, vault.files)
    }

    constructor ()
      ensures Valid() && Contents() == All(EMPTY, NO_FILES) && depth == 0
    {
      var t := NewDb();
      var v := NewVault();
      live, vault, depth, Repr := t, v, 0, {this} + t.Repr + v.Repr;
    }

    method RunInVault(op: Op)
      requires Valid() && OnFiles(op)
      modifies Repr
      ensures Valid() && depth == old(depth) && fresh(Repr - old(Repr))
      ensures live.view == old(live.view) && vault.files == ApplyFiles(old(vault.files), op)
    {
      RunFiles(vault, op);
      Repr := Repr + vault.Repr;
    }

    method RunInTables(op: Op)
      requires Valid() && !OnFiles(op) && !op.TxOp?
      modifies Repr
      ensures Valid() && depth == old(depth) && fresh(Repr - old(Repr))
      ensures live.view == ApplyTables(old(live.view), op) && vault.files == old(vault.files)
    {
      RunOn(live, op);
      Repr := Repr + live.Repr;
    }

    method Run(op: Op)
      requires Valid()
      modifies Repr
      ensures Valid() && depth == old(depth) && fresh(Repr - old(Repr))
      ensures Contents() == Apply(old(Contents()), op, depth)
      decreases op
    {
      if op.TxOp? {
        InTx(op.body, op.fails);
      } else if OnFiles(op) {
        RunInVault(op);
      } else {
        RunInTables(op);
      }
    }

    /** Copies of all tables that share no object with the live ones. */
    method Snapshot() returns (t: Db, v: Vault)
      requires Valid()
      ensures t.Valid() && v.Valid() && fresh(t.Repr) && fresh(v.Repr) && t.Repr !! v.Repr
      ensures All(t.view, v.files) == Contents()
    {
      t := live.Snapshot();
      v := vault.Copy();
    }

    /** Puts a snapshot's tables in place of the live ones. */
    method Restore(t: Db, v: Vault)
      requires Valid() && t.Valid() && v.Valid() && this !in t.Repr && this !in v.Repr && t.Repr !! v.Repr
      modifies this
      ensures Valid() && depth == old(depth) && Repr == old(Repr) + t.Repr + v.Repr
      ensures live == t && vault == v && Contents() == All(old(t.view), old(v.files))
    {
      live, vault := t, v;
      Repr := Repr + t.Repr + v.Repr;
    }

    method RunAll(ops: seq<Op>)
      requires Valid()
      modifies Repr
      ensures Valid() && depth == old(depth) && fresh(Repr - old(Repr))
      ensures Contents() == ApplyAll(old(Contents()), ops, depth)
      decreases ops, 0
    {
      if ops != [] {
        Run(ops[0]);
        RunAll(ops[1..]);
      }
    }

    method RunAtomically(body: seq<Op>, fails: bool)
      requires Valid()
      modifies Repr
      ensures Valid() && depth == old(depth) && fresh(Repr - old(Repr))
      ensures Contents() == if fails then old(Contents()) else ApplyAll(old(Contents()), body, depth)
      decreases body, 1
    {
      var t, v := Snapshot();
      RunAll(body);
      if fails {
        Restore(t, v);
      }
    }

    /** Runs the body holding the lock once more than before. When this is the
        outermost transaction and the body fails, every table is again what it
        was on entry; otherwise it is what the body left. */
    method InTx(body: seq<Op>, fails: bool)
      requires Valid()
      modifies Repr
      ensures Valid() && depth == old(depth) && fresh(Repr - old(Repr))
      ensures Contents() == if depth == 0 && fails then old(Contents())
                            else ApplyAll(old(Contents()), body, depth + 1)
      decreases body, 2
    {
      var outer := depth;
      depth := depth + 1;
      if outer > 0 {
        RunAll(body);
      } else {
        RunAtomically(body, fails);
      }
      depth := depth - 1;
    }
  }
}
