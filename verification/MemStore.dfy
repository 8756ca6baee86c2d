/** The in-memory store: tables of pointed-to records that operations change in
    place, and transactions that snapshot the records and restore them. */
module MemStore {
  import opened Text
  import opened Bytes
  import opened Records
  import opened HeapTables
  import opened Books

  // ----- operations on one table -----

  method IncrementIn(t: Table<NonceKey, NonceRow>, k: NonceKey) returns (val: int)
    requires t.Valid()
    modifies t.Repr
    ensures t.Valid() && fresh(t.Repr - old(t.Repr))
    ensures t.rows == IncrementPending(old(t.rows), k) && val == NonceAt(old(t.rows), k).pending
  {
    assert Opened(t, 0);
    if k !in t.recs {
      t.Put(k, NonceRow(0, 0, 0));
    }
    var n := t.Get(k);
    val := n.pending;
    t.Poke(k, n.(pending := val + 1, version := n.version + 1));
  }

  method AdvanceIn(t: Table<NonceKey, NonceRow>, k: NonceKey, nonce: int)
    requires t.Valid()
    modifies t.Repr
    ensures t.Valid() && fresh(t.Repr - old(t.Repr))
    ensures t.rows == AdvanceBroadcast(old(t.rows), k, nonce)
  {
    assert Opened(t, 0);
    if k !in t.recs {
      t.Put(k, NonceRow(0, 0, 0));
    }
    var n := t.Get(k);
    if nonce + 1 > n.broadcast {
      n := n.(broadcast := nonce + 1);
    }
    t.Poke(k, n);
  }

  lemma RelockNext(us: map<string, Utxo>, ops: seq<string>, i: nat, lock: LockState, txHash: Option<string>)
    requires i < |ops| && ops[i] in us
    ensures RelockAll(us, ops[i..], lock, txHash)
         == RelockAll(us[ops[i] := Relock(us[ops[i]], lock, txHash)], ops[i + 1..], lock, txHash)
  {
    assert ops[i..][1..] == ops[i + 1..];
  }

  method RelockIn(t: Table<string, Utxo>, ops: seq<string>, lock: LockState, txHash: Option<string>) returns (ok: bool)
    requires t.Valid()
    modifies t.Repr
    ensures t.Valid() && t.Repr == old(t.Repr)
    ensures t.rows == RelockAll(old(t.rows), ops, lock, txHash)
    ensures ok <==> AllKnown(old(t.rows), ops)
  {
    assert Opened(t, 0);
    for i := 0 to |ops|
      invariant t.Valid() && t.Repr == old(t.Repr) && t.rows.Keys == old(t.rows).Keys
      invariant RelockAll(t.rows, ops[i..], lock, txHash) == RelockAll(old(t.rows), ops, lock, txHash)
      invariant AllKnown(old(t.rows), ops[..i])
    {
      if ops[i] !in t.recs {
        return false;
      }
      var u := t.Get(ops[i]);
      RelockNext(t.rows, ops, i, lock, txHash);
      t.Poke(ops[i], Relock(u, lock, txHash));
      assert ops[..i + 1] == ops[..i] + [ops[i]];
    }
    assert ops[..|ops|] == ops;
    return true;
  }

  method LockIn(t: Table<string, Utxo>, ops: seq<string>) returns (ok: bool)
    requires t.Valid()
    modifies t.Repr
    ensures t.Valid() && t.Repr == old(t.Repr)
    ensures t.rows == LockUtxos(old(t.rows), ops)
    ensures ok <==> AllFree(old(t.rows), ops)
  {
    assert Opened(t, 0);
    for i := 0 to |ops|
      invariant t.Valid() && AllFree(t.rows, ops[..i])
      invariant t.Repr == old(t.Repr) && t.rows == old(t.rows)
    {
      if ops[i] !in t.recs {
        return false;
      }
      var u := t.Get(ops[i]);
      if u.lock != Free {
        return false;
      }
    }
    assert ops[..|ops|] == ops;
    ok := RelockIn(t, ops, Locked, None);
  }

  method PruneIn(t: Table<string, Utxo>, ops: seq<string>)
    requires t.Valid()
    modifies t.Repr
    ensures t.Valid() && t.Repr == old(t.Repr)
    ensures t.rows == Prune(old(t.rows), ops)
  {
    assert Opened(t, 0);
    for i := 0 to |ops|
      invariant t.Valid() && t.Repr == old(t.Repr)
      invariant t.rows == Prune(old(t.rows), ops[..i])
    {
      t.Delete(ops[i]);
      assert ops[..i + 1] == ops[..i] + [ops[i]];
    }
    assert ops[..|ops|] == ops;
  }

  method Assign<T>(c: Cell<T>, v: T)
    modifies c
    ensures c.v == v
  {
    c.v := v;
  }

  method RollbackIn(t: Table<NonceKey, NonceRow>, k: NonceKey, to: int) returns (affected: int)
    requires t.Valid()
    modifies t.Repr
    ensures t.Valid() && t.Repr == old(t.Repr)
    ensures t.rows == RollbackPending(old(t.rows), k, to)
    ensures affected == if k in old(t.rows) && old(t.rows)[k].pending == to + 1 then 1 else 0
  {
    assert Opened(t, 0);
    if k !in t.recs {
      return 0;
    }
    var n := t.Get(k);
    if n.pending == to + 1 {
      t.Poke(k, n.(pending := to, version := n.version + 1));
      return 1;
    }
    return 0;
  }

  // ----- all tables -----

  /** The maps whose entries are plain values: recorded events, counters and
      in-flight keys. The cell that holds them is changed in place. */
  datatype Rest = Rest(balanceEvents: set<string>, auditSeq: map<Id, int>, inflight: set<string>)

  const EMPTY_REST := Rest({}, map[], {})

  function Gather(utxos: map<string, Utxo>, nonces: map<NonceKey, NonceRow>, withdrawals: map<Id, Withdrawal>,
                  p: Pages, r: Rest): Tables {
    Tables(p.wallets, p.addresses, p.balances, r.balanceEvents, utxos, nonces, withdrawals, p.outbox, r.auditSeq, r.inflight)
  }

  /** The maps and slices of the store and the operations on them. Every table
      holds pointed-to records. */
  class Db {
    const utxos: Table<string, Utxo>
    const nonces: Table<NonceKey, NonceRow>
    const withdrawals: Table<Id, Withdrawal>
    const book: Book
    const rest: Cell<Rest>

    ghost var view: Tables
    ghost var Repr: set<object>

    ghost predicate Valid()
      reads this, Repr
    {
      this in Repr && forall n: nat {:trigger Opened(this, n)} :: Opened(this, n) ==> Inside()
    }

    /** The tables are the store's own and share no record. */
    ghost predicate Inside()
      reads this, Repr
    {
      && this in Repr && rest in Repr && utxos in Repr && nonces in Repr && withdrawals in Repr && book in Repr
      && utxos.Repr <= Repr && nonces.Repr <= Repr && withdrawals.Repr <= Repr && book.Repr <= Repr
      && this !in utxos.Repr && this !in nonces.Repr && this !in withdrawals.Repr && this !in book.Repr
      && rest !in utxos.Repr && rest !in nonces.Repr && rest !in withdrawals.Repr && rest !in book.Repr
      && utxos.Repr !! nonces.Repr && utxos.Repr !! withdrawals.Repr && nonces.Repr !! withdrawals.Repr
      && book.Repr !! utxos.Repr && book.Repr !! nonces.Repr && book.Repr !! withdrawals.Repr
      && utxos.Valid() && nonces.Valid() && withdrawals.Valid() && book.Valid()
      && view == Now()
    }

    ghost function Now(): Tables
      reads this, utxos, nonces, withdrawals, book, rest
    {
      Gather(utxos.rows, nonces.rows, withdrawals.rows, book.pages, rest.v)
    }

    constructor (u: Table<string, Utxo>, n: Table<NonceKey, NonceRow>, q: Table<Id, Withdrawal>, b: Book, c: Cell<Rest>)
      requires u.Valid() && n.Valid() && q.Valid() && b.Valid()
      requires c !in u.Repr && c !in n.Repr && c !in q.Repr && c !in b.Repr
      requires u.Repr !! n.Repr && u.Repr !! q.Repr && n.Repr !! q.Repr
      requires b.Repr !! u.Repr && b.Repr !! n.Repr && b.Repr !! q.Repr
      ensures Valid() && view == Gather(u.rows, n.rows, q.rows, b.pages, c.v)
      ensures Repr == {this, c} + u.Repr + n.Repr + q.Repr + b.Repr
    {
      utxos, nonces, withdrawals, book, rest := u, n, q, b, c;
      view := Gather(u.rows, n.rows, q.rows, b.pages, c.v);
      Repr := {this, c} + u.Repr + n.Repr + q.Repr + b.Repr;
    }

    // ----- wallets -----

    method CreateWallet(id: Id, w: Wallet) returns (ok: bool)
      requires Valid()
      modifies Repr
      ensures Valid() && fresh(Repr - old(Repr))
      ensures ok <==> id !in old(view).wallets
      ensures view == old(view).(wallets := if ok then old(view).wallets[id := w] else old(view).wallets)
    {
      assert Opened(this, 0);
      ok := book.CreateWallet(id, w);
      view, Repr := Now(), Repr + book.Repr;
    }

    method GetWallet(id: Id) returns (r: Option<Wallet>)
      requires Valid()
      ensures r == if id in view.wallets then Some(view.wallets[id]) else None
    {
      assert Opened(this, 0);
      r := book.GetWallet(id);
    }

    method UpdateWalletState(id: Id, state: WalletState) returns (ok: bool)
      requires Valid()
      modifies Repr
      ensures Valid() && fresh(Repr - old(Repr))
      ensures ok <==> id in old(view).wallets
      ensures view == old(view).(wallets := SetWalletState(old(view).wallets, id, state))
      ensures ok ==> view.wallets == old(view).wallets[id := old(view).wallets[id].(state := state)]
    {
      assert Opened(this, 0);
      ok := book.UpdateWalletState(id, state);
      view, Repr := Now(), Repr + book.Repr;
    }

    // ----- addresses -----

    method InsertAddress(id: Id, a: Address) returns (ok: bool)
      requires Valid()
      modifies Repr
      ensures Valid() && fresh(Repr - old(Repr))
      ensures ok <==> CanInsertAddress(old(view).addresses, id, a)
      ensures view == old(view).(addresses := Records.InsertAddress(old(view).addresses, id, a))
    {
      assert Opened(this, 0);
      ok := book.InsertAddress(id, a);
      view, Repr := Now(), Repr + book.Repr;
    }

    method DeprecateAddress(id: Id) returns (ok: bool)
      requires Valid()
      modifies Repr
      ensures Valid() && fresh(Repr - old(Repr))
      ensures ok <==> id in old(view).addresses
      ensures view == old(view).(addresses := Records.DeprecateAddress(old(view).addresses, id))
      ensures ok ==> view.addresses == old(view).addresses[id := old(view).addresses[id].(state := Deprecated)]
    {
      assert Opened(this, 0);
      ok := book.DeprecateAddress(id);
      view, Repr := Now(), Repr + book.Repr;
    }

    method IncrementReceiveCount(id: Id) returns (ok: bool)
      requires Valid()
      modifies Repr
      ensures Valid() && fresh(Repr - old(Repr))
      ensures ok <==> id in old(view).addresses
      ensures view == old(view).(addresses := CountReceive(old(view).addresses, id))
      ensures ok ==> var a := old(view).addresses[id];
        view.addresses == old(view).addresses[id := a.(receives := a.receives + 1)]
    {
      assert Opened(this, 0);
      ok := book.CountReceive(id);
      view, Repr := Now(), Repr + book.Repr;
    }

    // ----- balances -----

    method UpsertBalance(k: BalanceKey, b: Balance)
      requires Valid()
      modifies Repr
      ensures Valid() && fresh(Repr - old(Repr))
      ensures view == old(view).(balances := old(view).balances[k := b])
    {
      assert Opened(this, 0);
      book.UpsertBalance(k, b);
      view, Repr := Now(), Repr + book.Repr;
    }

    method GetBalance(k: BalanceKey) returns (r: Option<Balance>)
      requires Valid()
      ensures r == if k in view.balances then Some(view.balances[k]) else None
    {
      assert Opened(this, 0);
      r := book.GetBalance(k);
    }

    method RecordBalanceEvent(key: string) returns (ok: bool)
      requires Valid()
      modifies Repr
      ensures Valid() && fresh(Repr - old(Repr))
      ensures ok <==> key !in old(view).balanceEvents
      ensures view == old(view).(balanceEvents := old(view).balanceEvents + {key})
    {
      assert Opened(this, 0);
      ok := key !in rest.v.balanceEvents;
      Assign(rest, rest.v.(balanceEvents := rest.v.balanceEvents + {key}));
      view := Now();
    }

    // ----- unspent outputs -----

    method InsertUTXO(op: string, u: Utxo) returns (ok: bool)
      requires Valid()
      modifies Repr
      ensures Valid() && fresh(Repr - old(Repr))
      ensures view == old(view).(utxos := InsertUtxo(old(view).utxos, op, u))
      ensures ok <==> op !in old(view).utxos
    {
      assert Opened(this, 0);
      ok := PutIfAbsent(utxos, op, u);
      view, Repr := Now(), Repr + utxos.Repr;
    }

    method LockUTXOs(ops: seq<string>) returns (ok: bool)
      requires Valid()
      modifies Repr
      ensures Valid() && fresh(Repr - old(Repr))
      ensures view == old(view).(utxos := LockUtxos(old(view).utxos, ops))
      ensures ok <==> AllFree(old(view).utxos, ops)
    {
      assert Opened(this, 0);
      ok := LockIn(utxos, ops);
      view, Repr := Now(), Repr + utxos.Repr;
    }

    method MarkUTXOsSpent(ops: seq<string>, txHash: string) returns (ok: bool)
      requires Valid()
      modifies Repr
      ensures Valid() && fresh(Repr - old(Repr))
      ensures view == old(view).(utxos := MarkSpent(old(view).utxos, ops, txHash))
      ensures ok <==> AllKnown(old(view).utxos, ops)
    {
      assert Opened(this, 0);
      ok := RelockIn(utxos, ops, Spent, Some(txHash));
      view, Repr := Now(), Repr + utxos.Repr;
    }

    method RestoreUTXOs(ops: seq<string>) returns (ok: bool)
      requires Valid()
      modifies Repr
      ensures Valid() && fresh(Repr - old(Repr))
      ensures view == old(view).(utxos := Restore(old(view).utxos, ops))
      ensures ok <==> AllKnown(old(view).utxos, ops)
    {
      assert Opened(this, 0);
      ok := RelockIn(utxos, ops, Free, Some(""));
      view, Repr := Now(), Repr + utxos.Repr;
    }

    method PruneUTXOs(ops: seq<string>)
      requires Valid()
      modifies Repr
      ensures Valid() && fresh(Repr - old(Repr))
      ensures view == old(view).(utxos := Prune(old(view).utxos, ops))
    {
      assert Opened(this, 0);
      PruneIn(utxos, ops);
      view, Repr := Now(), Repr + utxos.Repr;
    }

    // ----- nonces -----

    method IncrementPendingNonce(k: NonceKey) returns (val: int)
      requires Valid()
      modifies Repr
      ensures Valid() && fresh(Repr - old(Repr))
      ensures view == old(view).(nonces := IncrementPending(old(view).nonces, k))
      ensures val == if k in old(view).nonces then old(view).nonces[k].pending else 0
      ensures k in view.nonces && view.nonces[k].pending == val + 1
      ensures view.nonces[k].broadcast == if k in old(view).nonces then old(view).nonces[k].broadcast else 0
    {
      assert Opened(this, 0);
      val := IncrementIn(nonces, k);
      view, Repr := Now(), Repr + nonces.Repr;
    }

    method UpsertNonce(k: NonceKey, row: NonceRow)
      requires Valid()
      modifies Repr
      ensures Valid() && fresh(Repr - old(Repr))
      ensures view == old(view).(nonces := old(view).nonces[k := row])
    {
      assert Opened(this, 0);
      nonces.Put(k, row);
      view, Repr := Now(), Repr + nonces.Repr;
    }

    method AdvanceBroadcastNonce(k: NonceKey, nonce: int)
      requires Valid()
      modifies Repr
      ensures Valid() && fresh(Repr - old(Repr))
      ensures view == old(view).(nonces := AdvanceBroadcast(old(view).nonces, k, nonce))
      ensures k in old(view).nonces ==> var n := old(view).nonces[k];
        view.nonces == old(view).nonces[k := n.(broadcast := if n.broadcast > nonce then n.broadcast else nonce + 1)]
    {
      assert Opened(this, 0);
      AdvanceIn(nonces, k, nonce);
      view, Repr := Now(), Repr + nonces.Repr;
    }

    method RollbackPendingNonce(k: NonceKey, to: int) returns (affected: int)
      requires Valid()
      modifies Repr
      ensures Valid() && fresh(Repr - old(Repr))
      ensures view == old(view).(nonces := RollbackPending(old(view).nonces, k, to))
      ensures affected == if k in old(view).nonces && old(view).nonces[k].pending == to + 1 then 1 else 0
      ensures affected == 0 ==> view == old(view)
      ensures affected == 1 ==> view.nonces[k].pending == to && view.nonces[k].broadcast == old(view).nonces[k].broadcast
    {
      assert Opened(this, 0);
      affected := RollbackIn(nonces, k, to);
      view, Repr := Now(), Repr + nonces.Repr;
    }

    // ----- withdrawals -----

    method SetInflight(keys: set<string>)
      requires Valid()
      modifies Repr
      ensures Valid() && fresh(Repr - old(Repr))
      ensures view == old(view).(inflight := keys)
    {
      assert Opened(this, 0);
      Assign(rest, rest.v.(inflight := keys));
      view := Now();
    }

    method PutRow(id: Id, w: Withdrawal)
      requires Valid() && id in view.withdrawals
      modifies Repr
      ensures Valid() && fresh(Repr - old(Repr))
      ensures view == old(view).(withdrawals := old(view).withdrawals[id := w])
    {
      assert Opened(this, 0);
      withdrawals.Poke(id, w);
      view, Repr := Now(), Repr + withdrawals.Repr;
    }

    method InsertRow(id: Id, w: Withdrawal) returns (ok: bool)
      requires Valid()
      modifies Repr
      ensures Valid() && fresh(Repr - old(Repr))
      ensures ok <==> id !in old(view).withdrawals
      ensures view == old(view).(withdrawals := if ok then old(view).withdrawals[id := w] else old(view).withdrawals)
    {
      assert Opened(this, 0);
      ok := PutIfAbsent(withdrawals, id, w);
      view, Repr := Now(), Repr + withdrawals.Repr;
    }

    method GetInflight() returns (keys: set<string>)
      requires Valid()
      ensures keys == view.inflight
    {
      assert Opened(this, 0);
      keys := rest.v.inflight;
    }

    method CreateWithdrawal(id: Id, w: Withdrawal) returns (ok: bool)
      requires Valid()
      modifies Repr
      ensures Valid() && fresh(Repr - old(Repr))
      ensures view == Records.CreateWithdrawal(old(view), id, w)
      ensures ok <==> CanCreate(old(view), id, w)
    {
      var keys := GetInflight();
      if DedupKey(w) in keys {
        return false;
      }
      ok := InsertRow(id, w);
      if ok {
        SetInflight(keys + {DedupKey(w)});
      }
    }

    method GetWithdrawal(id: Id) returns (r: Option<Withdrawal>)
      requires Valid()
      ensures r == if id in view.withdrawals then Some(view.withdrawals[id]) else None
    {
      assert Opened(this, 0);
      r := Lookup(withdrawals, id);
    }

    method UpdateWithdrawalState(id: Id, stage: Stage, reason: string, txHash: string, decision: string) returns (ok: bool)
      requires Valid()
      modifies Repr
      ensures Valid() && fresh(Repr - old(Repr))
      ensures view == UpdateStage(old(view), id, stage, reason, txHash, decision)
      ensures ok <==> id in old(view).withdrawals
    {
      var r := GetWithdrawal(id);
      if r.None? {
        return false;
      }
      if stage == Confirmed || stage == Failed {
        var keys := GetInflight();
        SetInflight(keys - {DedupKey(r.value)});
      }
      PutRow(id, WithStage(r.value, stage, reason, txHash, decision));
      return true;
    }

    method UpdateWithdrawalNonce(id: Id, nonce: int) returns (ok: bool)
      requires Valid()
      modifies Repr
      ensures Valid() && fresh(Repr - old(Repr))
      ensures view == UpdateNonce(old(view), id, nonce)
      ensures ok <==> id in old(view).withdrawals
    {
      assert Opened(this, 0);
      ok := PokeIfPresent(withdrawals, id, (w: Withdrawal) => w.(nonce := Some(nonce)));
      view, Repr := Now(), Repr + withdrawals.Repr;
    }

    method UpdateWithdrawalOutpoints(id: Id, ops: seq<string>) returns (ok: bool)
      requires Valid()
      modifies Repr
      ensures Valid() && fresh(Repr - old(Repr))
      ensures view == UpdateOutpoints(old(view), id, ops)
      ensures ok <==> id in old(view).withdrawals
    {
      assert Opened(this, 0);
      ok := PokeIfPresent(withdrawals, id, (w: Withdrawal) => w.(outpoints := ops));
      view, Repr := Now(), Repr + withdrawals.Repr;
    }

    method UpdateWithdrawalSignedTx(id: Id, bytes: seq<Byte>) returns (ok: bool)
      requires Valid()
      modifies Repr
      ensures Valid() && fresh(Repr - old(Repr))
      ensures view == UpdateSignedTx(old(view), id, bytes)
      ensures ok <==> id in old(view).withdrawals
    {
      assert Opened(this, 0);
      ok := PokeIfPresent(withdrawals, id, (w: Withdrawal) => w.(signedTx := bytes));
      view, Repr := Now(), Repr + withdrawals.Repr;
    }

    // ----- audit outbox -----

    method AppendAuditEvent(row: AuditRow) returns (ok: bool)
      requires Valid()
      modifies Repr
      ensures Valid() && fresh(Repr - old(Repr))
      ensures ok <==> FreshEvent(old(view).auditOutbox, row.eventId)
      ensures view == old(view).(auditOutbox := Append(old(view).auditOutbox, row))
    {
      assert Opened(this, 0);
      ok := book.Append(row);
      view, Repr := Now(), Repr + book.Repr;
    }

    /** The outbox rows, copied out. */
    method Outbox() returns (rows: seq<AuditRow>)
      requires Valid()
      ensures rows == view.auditOutbox
    {
      assert Opened(this, 0);
      rows := book.Entries();
    }

    method MarkAuditDelivered(id: Id) returns (ok: bool)
      requires Valid()
      modifies Repr
      ensures Valid() && fresh(Repr - old(Repr))
      ensures ok <==> HasRow(old(view).auditOutbox, id)
      ensures view == old(view).(auditOutbox := MarkDelivered(old(view).auditOutbox, id))
    {
      assert Opened(this, 0);
      ok := book.MarkDelivered(id);
      view, Repr := Now(), Repr + book.Repr;
    }

    method NextAuditSeq(wallet: Id) returns (n: int)
      requires Valid()
      modifies Repr
      ensures Valid() && fresh(Repr - old(Repr))
      ensures view == old(view).(auditSeq := NextSeq(old(view).auditSeq, wallet))
      ensures n == SeqOf(view.auditSeq, wallet)
    {
      assert Opened(this, 0);
      var seqs := NextSeq(rest.v.auditSeq, wallet);
      Assign(rest, rest.v.(auditSeq := seqs));
      view := Now();
      return seqs[wallet];
    }

    // ----- snapshots -----

    method CopySpending() returns (u: Table<string, Utxo>, n: Table<NonceKey, NonceRow>, q: Table<Id, Withdrawal>)
      requires Valid()
      ensures u.Valid() && n.Valid() && q.Valid() && fresh(u.Repr) && fresh(n.Repr) && fresh(q.Repr)
      ensures u.Repr !! n.Repr && u.Repr !! q.Repr && n.Repr !! q.Repr
      ensures u.rows == utxos.rows && n.rows == nonces.rows && q.rows == withdrawals.rows
    {
      assert Opened(this, 0);
      u := utxos.Copy();
      n := nonces.Copy();
      q := withdrawals.Copy();
    }

    /** Copies every record of every table into tables that hold none of the old
        objects. */
    method Snapshot() returns (t: Db)
      requires Valid()
      ensures t.Valid() && fresh(t.Repr) && t.view == view
    {
      assert Opened(this, 0);
      var u, n, q := CopySpending();
      var b := book.Copy();
      var c := new Cell(rest.v);
      t := new Db(u, n, q, b, c);
    }
  }

  /** A fresh store's tables. */
  method NewDb() returns (t: Db)
    ensures t.Valid() && fresh(t.Repr) && t.view == EMPTY
  {
    var u := new Table<string, Utxo>();
    var n := new Table<NonceKey, NonceRow>();
    var q := new Table<Id, Withdrawal>();
    var b := NewBook();
    var c := new Cell(EMPTY_REST);
    t := new Db(u, n, q, b, c);
  }
}
