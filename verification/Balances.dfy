/** Balance tracking: confirmation events applied once each, reorgs, and the
    locked portion. Decimal amounts are exact, so they are real numbers here. */
module Balances {
  import opened Records
  import opened MemStore

  // ----- events -----

  datatype Event = Event(wallet: Id, asset: string, amount: real, confirmations: int, block: int,
                         eventId: string, finalized: bool, chain: Chain)

  datatype Config = Config(confirmationsBtc: int, confirmationsEvm: int)

  function Threshold(cfg: Config, chain: Chain): int {
    if chain == Bitcoin then cfg.confirmationsBtc
    else if chain == Solana then 1
    else cfg.confirmationsEvm
  }

  predicate IsConfirmed(cfg: Config, ev: Event) {
    if ev.chain == Solana then ev.finalized else ev.confirmations >= Threshold(cfg, ev.chain)
  }

  /** What applying an event depends on: its dedup key, the row, the amount, and
      on which side of the threshold it is. */
  datatype Deposit = Deposit(key: string, row: BalanceKey, amount: real, confirmed: bool, block: int)

  function Resolve(cfg: Config, ev: Event): Deposit {
    Deposit(EventKey(ev.wallet, ev.asset, ev.block, ev.eventId), (ev.wallet, ev.asset), ev.amount,
            IsConfirmed(cfg, ev), ev.block)
  }

  // ----- the balance tables -----

  datatype Ledger = Ledger(events: set<string>, rows: map<BalanceKey, Balance>)

  function LedgerOf(t: Tables): Ledger { Ledger(t.balanceEvents, t.balances) }

  function WithLedger(t: Tables, l: Ledger): Tables { t.(balanceEvents := l.events, balances := l.rows) }

  const NO_BALANCE := Balance(0.0, 0.0, 0.0, 0)

  function RowAt(rows: map<BalanceKey, Balance>, k: BalanceKey): Balance { if k in rows then rows[k] else NO_BALANCE }

  function Max(a: int, b: int): int { if a > b then a else b }

  function Credit(b: Balance, d: Deposit): Balance {
    if d.confirmed
    then b.(confirmed := b.confirmed + d.amount, lastBlock := Max(b.lastBlock, d.block))
    else b.(pending := b.pending + d.amount, lastBlock := Max(b.lastBlock, d.block))
  }

  /** A second event with a recorded key does nothing. */
  function Confirm(l: Ledger, d: Deposit): Ledger {
    if d.key in l.events then l
    else Ledger(l.events + {d.key}, l.rows[d.row := Credit(RowAt(l.rows, d.row), d)])
  }

  datatype Op =
    | Confirmation(d: Deposit)
    | Reorg(row: BalanceKey)
    | AddLocked(row: BalanceKey, amount: real)
    | ReleaseLocked(row: BalanceKey, amount: real)

  function Demote(b: Balance): Balance { b.(confirmed := 0.0, pending := b.pending + b.confirmed) }

  function Unlock(b: Balance, amount: real): Balance {
    b.(locked := if b.locked - amount < 0.0 then 0.0 else b.locked - amount)
  }

  function Apply(l: Ledger, op: Op): Ledger {
    match op
    case Confirmation(d) => Confirm(l, d)
    case Reorg(k) => if k in l.rows then l.(rows := l.rows[k := Demote(l.rows[k])]) else l
    case AddLocked(k, x) =>
      if k in l.rows then l.(rows := l.rows[k := l.rows[k].(locked := l.rows[k].locked + x)]) else l
    case ReleaseLocked(k, x) => if k in l.rows then l.(rows := l.rows[k := Unlock(l.rows[k], x)]) else l
  }

  function Run(l: Ledger, ops: seq<Op>): Ledger
    decreases |ops|
  {
    if ops == [] then l else Run(Apply(l, ops[0]), ops[1..])
  }

  /** The event's row, and no other, grows by the amount: in confirmed when the event
      is deep enough for its chain, in pending otherwise. A missing row counts as
      empty. */
  predicate IsCredited(before: map<BalanceKey, Balance>, after: map<BalanceKey, Balance>, cfg: Config, ev: Event) {
    var k := (ev.wallet, ev.asset);
    && after.Keys == before.Keys + {k}
    && (forall j :: j in before && j != k ==> after[j] == before[j])
    && var b := if k in before then before[k] else Balance(0.0, 0.0, 0.0, 0);
       var deep := if ev.chain == Bitcoin then ev.confirmations >= cfg.confirmationsBtc
                   else if ev.chain == Solana then ev.finalized
                   else ev.confirmations >= cfg.confirmationsEvm;
       && after[k].confirmed == (if deep then b.confirmed + ev.amount else b.confirmed)
       && after[k].pending == (if deep then b.pending else b.pending + ev.amount)
       && after[k].locked == b.locked
       && after[k].lastBlock == (if ev.block > b.lastBlock then ev.block else b.lastBlock)
  }

  /** Every event with a new key is recorded and credited so; a known one changes
      nothing. */
  lemma NewEventCredits(l: Ledger, cfg: Config, ev: Event)
    ensures var key := EventKey(ev.wallet, ev.asset, ev.block, ev.eventId); var l' := Confirm(l, Resolve(cfg, ev));
      if key in l.events then l' == l
      else l'.events == l.events + {key} && IsCredited(l.rows, l'.rows, cfg, ev)
  {
  }

  // ----- the service as it runs -----

  /** Records the event, then reads, changes and writes the row. */
  method ApplyConfirmationEvent(db: Db, cfg: Config, ev: Event)
    requires db.Valid()
    modifies db.Repr
    ensures db.Valid() && fresh(db.Repr - old(db.Repr))
    ensures db.view == WithLedger(old(db.view), Confirm(LedgerOf(old(db.view)), Resolve(cfg, ev)))
    ensures EventKey(ev.wallet, ev.asset, ev.block, ev.eventId) in old(db.view).balanceEvents ==> db.view == old(db.view)
    ensures EventKey(ev.wallet, ev.asset, ev.block, ev.eventId) !in old(db.view).balanceEvents ==>
      IsCredited(old(db.view).balances, db.view.balances, cfg, ev)
  {
    NewEventCredits(LedgerOf(db.view), cfg, ev);
    var key, row := EventKey(ev.wallet, ev.asset, ev.block, ev.eventId), (ev.wallet, ev.asset);
    var isNew := db.RecordBalanceEvent(key);
    if !isNew {
      assert old(db.view).balanceEvents + {key} == old(db.view).balanceEvents;
      return;
    }
    var found := db.GetBalance(row);
    var cur := if found.Some? then found.value else NO_BALANCE;
    var confirmed, pending := cur.confirmed, cur.pending;
    if IsConfirmed(cfg, ev) {
      confirmed := confirmed + ev.amount;
    } else {
      pending := pending + ev.amount;
    }
    db.UpsertBalance(row, Balance(confirmed, pending, cur.locked, Max(cur.lastBlock, ev.block)));
  }

  /** Demotes the row, then frees the event's outpoints when a restorer is wired.
      A failing restore is reported with the demotion already made. */
  method ApplyReorgEvent(db: Db, row: BalanceKey, ops: seq<string>, wired: bool) returns (ok: bool)
    requires db.Valid()
    modifies db.Repr
    ensures db.Valid() && fresh(db.Repr - old(db.Repr))
    ensures ok <==> wired ==> AllKnown(old(db.view).utxos, ops)
    ensures db.view == WithLedger(old(db.view), Apply(LedgerOf(old(db.view)), Reorg(row))).(
      utxos := if wired then Restore(old(db.view).utxos, ops) else old(db.view).utxos)
    ensures row in old(db.view).balances ==>
      var b := old(db.view).balances[row];
      db.view.balances == old(db.view).balances[row := Balance(0.0, b.pending + b.confirmed, b.locked, b.lastBlock)]
    ensures row !in old(db.view).balances ==> db.view.balances == old(db.view).balances
  {
    var found := db.GetBalance(row);
    if found.Some? {
      var cur := found.value;
      db.UpsertBalance(row, Balance(0.0, cur.pending + cur.confirmed, cur.locked, cur.lastBlock));
    }
    ok := true;
    if wired && ops != [] {
      ok := db.RestoreUTXOs(ops);
    }
  }

  /** Both lock changes report a missing row. */
  method ChangeLocked(db: Db, row: BalanceKey, amount: real, add: bool) returns (ok: bool)
    requires db.Valid()
    modifies db.Repr
    ensures db.Valid() && fresh(db.Repr - old(db.Repr))
    ensures ok <==> row in old(db.view).balances
    ensures db.view == WithLedger(old(db.view), Apply(LedgerOf(old(db.view)),
                           if add then AddLocked(row, amount) else ReleaseLocked(row, amount)))
    ensures ok ==>
      var x := old(db.view).balances[row].locked; var y := if add then x + amount else x - amount;
      db.view == old(db.view).(balances := old(db.view).balances[row := old(db.view).balances[row].(
        locked := if add || y >= 0.0 then y else 0.0)])
  {
    var found := db.GetBalance(row);
    if found.None? {
      return false;
    }
    var cur := found.value;
    var locked := if add then cur.locked + amount else cur.locked - amount;
    if !add && locked < 0.0 {
      locked := 0.0;
    }
    db.UpsertBalance(row, Balance(cur.confirmed, cur.pending, locked, cur.lastBlock));
    return true;
  }

  // ----- conservation -----

  function Total(l: Ledger, k: BalanceKey): real { RowAt(l.rows, k).confirmed + RowAt(l.rows, k).pending }

  /** The amounts of a row's events, each distinct key counted once. */
  function Deposited(ops: seq<Op>, seen: set<string>, k: BalanceKey): real
    decreases |ops|
  {
    if ops == [] then 0.0
    else if !ops[0].Confirmation? || ops[0].d.key in seen then Deposited(ops[1..], seen, k)
    else (if ops[0].d.row == k then ops[0].d.amount else 0.0) + Deposited(ops[1..], seen + {ops[0].d.key}, k)
  }

  lemma ApplyTotal(l: Ledger, op: Op, k: BalanceKey)
    ensures Total(Apply(l, op), k)
            == if op.Confirmation? && op.d.key !in l.events && op.d.row == k then Total(l, k) + op.d.amount else Total(l, k)
    ensures Apply(l, op).events == if op.Confirmation? then l.events + {op.d.key} else l.events
  {
  }

  /** Over every mix of confirmations, duplicates, reorgs and lock changes,
      confirmed plus pending is what the distinct events deposited. */
  lemma {:induction false} Conservation(l: Ledger, ops: seq<Op>, k: BalanceKey)
    ensures Total(Run(l, ops), k) == Total(l, k) + Deposited(ops, l.events, k)
    decreases |ops|
  {
    if ops != [] {
      var op := ops[0];
      ApplyTotal(l, op, k);
      Conservation(Apply(l, op), ops[1..], k);
      if op.Confirmation? && op.d.key in l.events {
        assert l.events + {op.d.key} == l.events;
      }
    }
  }

  /** The locked portion never goes negative when locks add nothing negative. */
  predicate LocksOk(ops: seq<Op>) { forall i :: 0 <= i < |ops| ==> ops[i].AddLocked? ==> ops[i].amount >= 0.0 }

  predicate LockedOk(l: Ledger) { forall k :: k in l.rows ==> l.rows[k].locked >= 0.0 }

  lemma {:induction false} LockedStaysNonNegative(l: Ledger, ops: seq<Op>)
    requires LocksOk(ops) && LockedOk(l)
    ensures LockedOk(Run(l, ops))
    decreases |ops|
  {
    if ops != [] {
      assert LockedOk(Apply(l, ops[0]));
      LockedStaysNonNegative(Apply(l, ops[0]), ops[1..]);
    }
  }

  // ----- without reorgs only the set of events matters -----

  function ConfirmAll(l: Ledger, ds: seq<Deposit>): Ledger
    decreases |ds|
  {
    if ds == [] then l else ConfirmAll(Confirm(l, ds[0]), ds[1..])
  }

  predicate KeysIdentify(ds: set<Deposit>) {
    forall a, b :: a in ds && b in ds && a.key == b.key ==> a == b
  }

  lemma ConfirmCommutes(l: Ledger, a: Deposit, b: Deposit)
    requires a.key != b.key
    ensures Confirm(Confirm(l, a), b) == Confirm(Confirm(l, b), a)
  {
    var x, y := Confirm(Confirm(l, a), b), Confirm(Confirm(l, b), a);
    assert x.events == y.events;
    assert x.rows == y.rows;
  }

  ghost function ConfirmSet(l: Ledger, ds: set<Deposit>): Ledger
    decreases |ds|
  {
    if ds == {} then l
    else
      var d :| d in ds;
      ConfirmSet(Confirm(l, d), ds - {d})
  }

  lemma {:induction false} ConfirmSetPick(l: Ledger, ds: set<Deposit>, x: Deposit)
    requires KeysIdentify(ds) && x in ds
    ensures ConfirmSet(l, ds) == ConfirmSet(Confirm(l, x), ds - {x})
    decreases |ds|
  {
    var d :| d in ds && ConfirmSet(l, ds) == ConfirmSet(Confirm(l, d), ds - {d});
    if d != x {
      ConfirmSetPick(Confirm(l, d), ds - {d}, x);
      ConfirmSetPick(Confirm(l, x), ds - {x}, d);
      ConfirmCommutes(l, d, x);
      assert ds - {d} - {x} == ds - {x} - {d};
    }
  }

  function All(ds: seq<Deposit>): set<Deposit> { set d | d in ds }

  lemma ConfirmTwice(l: Ledger, d: Deposit)
    ensures Confirm(Confirm(l, d), d) == Confirm(l, d)
  {
  }

  lemma {:induction false} ConfirmAllIsSet(l: Ledger, ds: seq<Deposit>)
    requires KeysIdentify(All(ds))
    ensures ConfirmAll(l, ds) == ConfirmSet(l, All(ds))
    decreases |ds|
  {
    if ds != [] {
      var x, rest := ds[0], ds[1..];
      assert All(ds) == All(rest) + {x};
      ConfirmAllIsSet(Confirm(l, x), rest);
      ConfirmSetPick(l, All(ds), x);
      if x in rest {
        assert All(ds) == All(rest);
        ConfirmTwice(l, x);
        ConfirmSetPick(Confirm(l, x), All(rest), x);
      } else {
        assert All(ds) - {x} == All(rest);
      }
    }
  }

  /** Order and duplication do not matter: the same events leave the same rows. */
  lemma OrderIrrelevant(l: Ledger, xs: seq<Deposit>, ys: seq<Deposit>)
    requires All(xs) == All(ys) && KeysIdentify(All(xs))
    ensures ConfirmAll(l, xs) == ConfirmAll(l, ys)
  {
    ConfirmAllIsSet(l, xs);
    ConfirmAllIsSet(l, ys);
  }

  // ----- lock changes in between -----

  /** The ledger without its locked amounts. */
  function Unlocked(l: Ledger): Ledger {
    l.(rows := map k | k in l.rows :: l.rows[k].(locked := 0.0))
  }

  function Deposits(ops: seq<Op>): seq<Deposit> {
    if ops == [] then [] else (if ops[0].Confirmation? then [ops[0].d] else []) + Deposits(ops[1..])
  }

  predicate NoReorg(ops: seq<Op>) { forall op :: op in ops ==> !op.Reorg? }

  lemma ApplyUnlocked(l: Ledger, op: Op)
    requires !op.Reorg?
    ensures Unlocked(Apply(l, op)) == if op.Confirmation? then Confirm(Unlocked(l), op.d) else Unlocked(l)
  {
    if op.Confirmation? {
      assert Unlocked(Apply(l, op)).rows == Confirm(Unlocked(l), op.d).rows;
    } else {
      assert Unlocked(Apply(l, op)).rows == Unlocked(l).rows;
    }
  }

  lemma {:induction false} RunUnlocked(l: Ledger, ops: seq<Op>)
    requires NoReorg(ops)
    ensures Unlocked(Run(l, ops)) == ConfirmAll(Unlocked(l), Deposits(ops))
    decreases |ops|
  {
    if ops != [] {
      ApplyUnlocked(l, ops[0]);
      RunUnlocked(Apply(l, ops[0]), ops[1..]);
      if ops[0].Confirmation? {
        assert Deposits(ops)[1..] == Deposits(ops[1..]);
      } else {
        assert Deposits(ops) == Deposits(ops[1..]);
      }
    }
  }

  /** Without reorgs, two runs with the same events, in any order and number and
      with any lock changes in between, record the same events and agree on
      confirmed, pending and last block of every row. */
  lemma OnlyEventsMatter(l: Ledger, xs: seq<Op>, ys: seq<Op>, k: BalanceKey)
    requires NoReorg(xs) && NoReorg(ys)
    requires All(Deposits(xs)) == All(Deposits(ys)) && KeysIdentify(All(Deposits(xs)))
    ensures var a, b := Run(l, xs), Run(l, ys);
      && a.events == b.events && (k in a.rows <==> k in b.rows)
      && RowAt(a.rows, k).confirmed == RowAt(b.rows, k).confirmed
      && RowAt(a.rows, k).pending == RowAt(b.rows, k).pending
      && RowAt(a.rows, k).lastBlock == RowAt(b.rows, k).lastBlock
  {
    RunUnlocked(l, xs);
    RunUnlocked(l, ys);
    OrderIrrelevant(Unlocked(l), Deposits(xs), Deposits(ys));
    var a, b := Run(l, xs), Run(l, ys);
    assert Unlocked(a) == Unlocked(b);
    assert k in a.rows <==> k in Unlocked(a).rows;
    assert k in b.rows <==> k in Unlocked(b).rows;
    if k in a.rows {
      assert Unlocked(a).rows[k] == Unlocked(b).rows[k];
    }
  }

  /** A reorg and a confirmation can be exchanged if and only if the event is a
      repetition, is for another row, only adds to pending, or adds nothing. */
  lemma ReorgCommutesIff(l: Ledger, d: Deposit, k: BalanceKey)
    ensures Apply(Apply(l, Confirmation(d)), Reorg(k)) == Apply(Apply(l, Reorg(k)), Confirmation(d))
       <==> d.key in l.events || d.row != k || !d.confirmed || d.amount == 0.0
  {
    var x, y := Apply(Apply(l, Confirmation(d)), Reorg(k)), Apply(Apply(l, Reorg(k)), Confirmation(d));
    if d.key in l.events || d.row != k || !d.confirmed || d.amount == 0.0 {
      assert x.rows == y.rows;
    } else {
      assert x.rows[k].confirmed == 0.0 && y.rows[k].confirmed == d.amount;
    }
  }
}
