/** The rows of the in-memory store and what each store operation does to them,
    as functions on values. */
module Records {
  import opened Text
  import opened Bytes

  /** Identifiers are the text of a UUID. */
  type Id = string

  datatype Chain = Ethereum | Polygon | Arbitrum | Base | Optimism | Solana | Bitcoin | OtherChain(name: string)

  predicate IsEvm(c: Chain) { c.Ethereum? || c.Polygon? || c.Arbitrum? || c.Base? || c.Optimism? }

  datatype WalletState = InService | Paused | Retired
  datatype Wallet = Wallet(chain: Chain, state: WalletState)

  datatype AddressState = Active | Deprecated
  datatype Address = Address(wallet: Id, chain: Chain, text: string, index: int, change: int,
                             state: AddressState, receives: int)

  datatype Balance = Balance(confirmed: real, pending: real, locked: real, lastBlock: int)

  datatype LockState = Free | Locked | Spent
  datatype Utxo = Utxo(wallet: Id, value: string, lock: LockState, txHash: string)

  datatype NonceRow = NonceRow(pending: int, broadcast: int, version: int)

  datatype Stage = Pending | Whitelisted | Signed | Broadcast | Confirmed | Failed
  datatype Withdrawal = Withdrawal(wallet: Id, to: string, asset: string, amount: string, stage: Stage,
                                   decision: string, reason: string, txHash: string,
                                   nonce: Option<int>, outpoints: seq<string>, signedTx: seq<Byte>)

  datatype AuditRow = AuditRow(id: Id, eventId: Id, wallet: Option<Id>, eventType: string, seqNo: int,
                               delivered: bool, attempts: int)

  /** The counters of one wallet on one chain, and the balance of one asset. */
  type NonceKey = (Id, Chain)
  type BalanceKey = (Id, string)

  datatype Tables = Tables(
    wallets: map<Id, Wallet>, addresses: map<Id, Address>, balances: map<BalanceKey, Balance>,
    balanceEvents: set<string>, utxos: map<string, Utxo>, nonces: map<NonceKey, NonceRow>,
    withdrawals: map<Id, Withdrawal>, auditOutbox: seq<AuditRow>, auditSeq: map<Id, int>,
    inflight: set<string>)

  const EMPTY := Tables(map[], map[], map[], {}, map[], map[], map[], [], map[], {})

  // ----- wallets -----

  function SetWalletState(ws: map<Id, Wallet>, id: Id, state: WalletState): map<Id, Wallet> {
    if id in ws then ws[id := ws[id].(state := state)] else ws
  }

  // ----- addresses -----

  predicate HasActive(a: map<Id, Address>, wallet: Id) {
    exists k :: k in a && a[k].wallet == wallet && a[k].state == Active
  }

  /** Refused when the id is taken or a second active address would appear. */
  predicate CanInsertAddress(a: map<Id, Address>, id: Id, row: Address) {
    id !in a && (row.state == Active ==> !HasActive(a, row.wallet))
  }

  function InsertAddress(a: map<Id, Address>, id: Id, row: Address): map<Id, Address> {
    if CanInsertAddress(a, id, row) then a[id := row] else a
  }

  function DeprecateAddress(a: map<Id, Address>, id: Id): map<Id, Address> {
    if id in a then a[id := a[id].(state := Deprecated)] else a
  }

  function CountReceive(a: map<Id, Address>, id: Id): map<Id, Address> {
    if id in a then a[id := a[id].(receives := a[id].receives + 1)] else a
  }

  // ----- unspent outputs -----

  function InsertUtxo(us: map<string, Utxo>, op: string, u: Utxo): map<string, Utxo> {
    if op in us then us else us[op := u]
  }

  function Relock(u: Utxo, lock: LockState, txHash: Option<string>): Utxo {
    Utxo(u.wallet, u.value, lock, if txHash.Some? then txHash.value else u.txHash)
  }

  /** Relabels outpoints in order and stops at the first unknown one. */
  function RelockAll(us: map<string, Utxo>, ops: seq<string>, lock: LockState, txHash: Option<string>): map<string, Utxo> {
    if ops == [] || ops[0] !in us then us
    else RelockAll(us[ops[0] := Relock(us[ops[0]], lock, txHash)], ops[1..], lock, txHash)
  }

  predicate AllKnown(us: map<string, Utxo>, ops: seq<string>) { forall op :: op in ops ==> op in us }

  predicate AllFree(us: map<string, Utxo>, ops: seq<string>) {
    forall op :: op in ops ==> op in us && us[op].lock == Free
  }

  /** Locks every outpoint or none. */
  function LockUtxos(us: map<string, Utxo>, ops: seq<string>): map<string, Utxo> {
    if AllFree(us, ops) then RelockAll(us, ops, Locked, None) else us
  }

  function MarkSpent(us: map<string, Utxo>, ops: seq<string>, txHash: string): map<string, Utxo> {
    RelockAll(us, ops, Spent, Some(txHash))
  }

  function Restore(us: map<string, Utxo>, ops: seq<string>): map<string, Utxo> {
    RelockAll(us, ops, Free, Some(""))
  }

  function Prune(us: map<string, Utxo>, ops: seq<string>): map<string, Utxo> {
    map k | k in us && k !in ops :: us[k]
  }

  /** With every outpoint known, relabelling touches those rows and no other. */
  lemma {:induction false} RelockAllAt(us: map<string, Utxo>, ops: seq<string>, lock: LockState, txHash: Option<string>)
    requires AllKnown(us, ops)
    ensures RelockAll(us, ops, lock, txHash).Keys == us.Keys
    ensures forall k :: k in us ==> RelockAll(us, ops, lock, txHash)[k]
                                    == if k in ops then Utxo(us[k].wallet, us[k].value, lock,
                                                             if txHash.Some? then txHash.value else us[k].txHash)
                                       else us[k]
  {
    if ops != [] {
      var us' := us[ops[0] := Relock(us[ops[0]], lock, txHash)];
      RelockAllAt(us', ops[1..], lock, txHash);
      assert forall k :: k in ops <==> k == ops[0] || k in ops[1..];
    }
  }

  /** Even when it stops early, relabelling keeps every row's owner and value. */
  lemma {:induction false} RelockAllKeeps(us: map<string, Utxo>, ops: seq<string>, lock: LockState, txHash: Option<string>)
    ensures RelockAll(us, ops, lock, txHash).Keys == us.Keys
    ensures forall k :: k in us ==>
      && RelockAll(us, ops, lock, txHash)[k].value == us[k].value
      && RelockAll(us, ops, lock, txHash)[k].wallet == us[k].wallet
      && (k !in ops ==> RelockAll(us, ops, lock, txHash)[k] == us[k])
  {
    if ops != [] && ops[0] in us {
      RelockAllKeeps(us[ops[0] := Relock(us[ops[0]], lock, txHash)], ops[1..], lock, txHash);
    }
  }

  /** The outpoints up to the first unknown one. */
  function KnownPart(known: set<string>, ops: seq<string>): (r: seq<string>)
    ensures forall op :: op in r ==> op in known && op in ops
  {
    if ops == [] || ops[0] !in known then [] else [ops[0]] + KnownPart(known, ops[1..])
  }

  /** Relabelling is relabelling of the part it gets through. */
  lemma {:induction false} RelockKnownPart(us: map<string, Utxo>, ops: seq<string>, lock: LockState, txHash: Option<string>)
    ensures RelockAll(us, ops, lock, txHash) == RelockAll(us, KnownPart(us.Keys, ops), lock, txHash)
  {
    if ops != [] && ops[0] in us {
      var us' := us[ops[0] := Relock(us[ops[0]], lock, txHash)];
      assert us'.Keys == us.Keys;
      RelockKnownPart(us', ops[1..], lock, txHash);
      assert KnownPart(us.Keys, ops)[1..] == KnownPart(us.Keys, ops[1..]);
    }
  }

  // ----- nonces -----

  function NonceAt(ns: map<NonceKey, NonceRow>, k: NonceKey): NonceRow {
    if k in ns then ns[k] else NonceRow(0, 0, 0)
  }

  function IncrementPending(ns: map<NonceKey, NonceRow>, k: NonceKey): map<NonceKey, NonceRow> {
    var n := NonceAt(ns, k);
    ns[k := n.(pending := n.pending + 1, version := n.version + 1)]
  }

  function AdvanceBroadcast(ns: map<NonceKey, NonceRow>, k: NonceKey, nonce: int): map<NonceKey, NonceRow> {
    var n := NonceAt(ns, k);
    ns[k := n.(broadcast := if nonce + 1 > n.broadcast then nonce + 1 else n.broadcast)]
  }

  /** Only the most recent reservation comes back; otherwise nothing happens. */
  function RollbackPending(ns: map<NonceKey, NonceRow>, k: NonceKey, to: int): map<NonceKey, NonceRow> {
    if k in ns && ns[k].pending == to + 1
    then ns[k := ns[k].(pending := to, version := ns[k].version + 1)]
    else ns
  }

  // ----- withdrawals -----

  function DedupKey(w: Withdrawal): string { w.wallet + "|" + w.to + "|" + w.amount + "|" + w.asset }

  predicate SameRequest(v: Withdrawal, w: Withdrawal) {
    v.wallet == w.wallet && v.to == w.to && v.amount == w.amount && v.asset == w.asset
  }

  predicate NoBars(w: Withdrawal) { '|' !in w.to && '|' !in w.amount && '|' !in w.asset }

  function Bars(s: string): nat { multiset(s)['|'] }

  lemma KeyBars(w: Withdrawal)
    ensures Bars(DedupKey(w)) == Bars(w.wallet) + Bars(w.to) + Bars(w.amount) + Bars(w.asset) + 3
  {
  }

  /** Equal keys without separators inside the parts come from equal requests. */
  lemma BarFreeKeysSplit(v: Withdrawal, w: Withdrawal)
    requires '|' !in v.wallet && '|' !in w.wallet && NoBars(v) && NoBars(w) && DedupKey(v) == DedupKey(w)
    ensures SameRequest(v, w)
  {
    var tv, tw := v.amount + "|" + v.asset, w.amount + "|" + w.asset;
    assert DedupKey(v) == v.wallet + "|" + (v.to + "|" + tv);
    assert DedupKey(w) == w.wallet + "|" + (w.to + "|" + tw);
    JoinFirstInjective(v.wallet, v.to + "|" + tv, w.wallet, w.to + "|" + tw, '|');
    JoinFirstInjective(v.to, tv, w.to, tw, '|');
    JoinFirstInjective(v.amount, v.asset, w.amount, w.asset, '|');
  }

  lemma BarsNone(s: string)
    ensures Bars(s) == 0 <==> '|' !in s
  {
  }

  /** A key with three separators has none inside its parts. */
  lemma BarFreeKeyIsUnique(v: Withdrawal, w: Withdrawal)
    requires '|' !in v.wallet && '|' !in w.wallet && NoBars(v) && DedupKey(v) == DedupKey(w)
    ensures SameRequest(v, w)
  {
    assert NoBars(w) by {
      KeyBars(v);
      KeyBars(w);
      BarsNone(v.wallet);
      BarsNone(v.to);
      BarsNone(v.amount);
      BarsNone(v.asset);
      BarsNone(w.to);
      BarsNone(w.amount);
      BarsNone(w.asset);
    }
    BarFreeKeysSplit(v, w);
  }

  /** Text with a separator splits around it. */
  lemma SplitAtBar(s: string) returns (p: string, q: string)
    requires '|' in s
    ensures s == p + "|" + q
  {
    var i :| 0 <= i < |s| && s[i] == '|';
    p, q := s[..i], s[i + 1..];
  }

  /** A separator in the recipient, the amount or the asset lets the border to a
      neighbouring part move, and another request has the same key. */
  lemma BarGivesTwin(v: Withdrawal) returns (w: Withdrawal)
    requires !NoBars(v)
    ensures w.wallet == v.wallet && DedupKey(w) == DedupKey(v) && !SameRequest(v, w)
  {
    if '|' in v.to {
      var p, q := SplitAtBar(v.to);
      w := v.(to := p, amount := q + "|" + v.amount);
      assert v.to + "|" + v.amount == w.to + "|" + w.amount;
      assert DedupKey(v) == v.wallet + "|" + (v.to + "|" + v.amount) + "|" + v.asset;
      assert DedupKey(w) == v.wallet + "|" + (w.to + "|" + w.amount) + "|" + v.asset;
    } else if '|' in v.amount {
      var p, q := SplitAtBar(v.amount);
      w := v.(amount := p, asset := q + "|" + v.asset);
      assert v.amount + "|" + v.asset == w.amount + "|" + w.asset;
      assert DedupKey(v) == v.wallet + "|" + v.to + "|" + (v.amount + "|" + v.asset);
      assert DedupKey(w) == v.wallet + "|" + v.to + "|" + (w.amount + "|" + w.asset);
    } else {
      var p, q := SplitAtBar(v.asset);
      w := v.(amount := v.amount + "|" + p, asset := q);
      assert v.amount + "|" + v.asset == w.amount + "|" + w.asset;
      assert DedupKey(v) == v.wallet + "|" + v.to + "|" + (v.amount + "|" + v.asset);
      assert DedupKey(w) == v.wallet + "|" + v.to + "|" + (w.amount + "|" + w.asset);
    }
  }

  /** Wallet ids hold no separator. A request's key then belongs to no other
      request if and only if its recipient, amount and asset hold none either. */
  lemma DedupKeyUniqueIff(v: Withdrawal)
    requires '|' !in v.wallet
    ensures (forall w: Withdrawal :: '|' !in w.wallet && DedupKey(w) == DedupKey(v) ==> SameRequest(v, w)) <==> NoBars(v)
  {
    if NoBars(v) {
      forall w: Withdrawal | '|' !in w.wallet && DedupKey(w) == DedupKey(v) ensures SameRequest(v, w) {
        BarFreeKeyIsUnique(v, w);
      }
    } else {
      var w := BarGivesTwin(v);
    }
  }

  predicate InFlight(w: Withdrawal) { w.stage != Confirmed && w.stage != Failed }

  predicate CanCreate(t: Tables, id: Id, w: Withdrawal) {
    id !in t.withdrawals && DedupKey(w) !in t.inflight
  }

  function CreateWithdrawal(t: Tables, id: Id, w: Withdrawal): Tables {
    if CanCreate(t, id, w)
    then t.(withdrawals := t.withdrawals[id := w], inflight := t.inflight + {DedupKey(w)})
    else t
  }

  function OrKeep(text: string, kept: string): string { if text != "" then text else kept }

  function WithStage(w: Withdrawal, stage: Stage, reason: string, txHash: string, decision: string): Withdrawal {
    w.(stage := stage, reason := OrKeep(reason, w.reason), txHash := OrKeep(txHash, w.txHash),
       decision := OrKeep(decision, w.decision))
  }

  /** Entering a terminal stage releases the in-flight key. */
  function UpdateStage(t: Tables, id: Id, stage: Stage, reason: string, txHash: string, decision: string): Tables {
    if id !in t.withdrawals then t
    else
      var w := t.withdrawals[id];
      t.(withdrawals := t.withdrawals[id := WithStage(w, stage, reason, txHash, decision)],
         inflight := if stage == Confirmed || stage == Failed then t.inflight - {DedupKey(w)} else t.inflight)
  }

  function SetRow(t: Tables, id: Id, w: Withdrawal): Tables
    requires id in t.withdrawals
  {
    t.(withdrawals := t.withdrawals[id := w])
  }

  function UpdateNonce(t: Tables, id: Id, nonce: int): Tables {
    if id in t.withdrawals then SetRow(t, id, t.withdrawals[id].(nonce := Some(nonce))) else t
  }

  function UpdateOutpoints(t: Tables, id: Id, ops: seq<string>): Tables {
    if id in t.withdrawals then SetRow(t, id, t.withdrawals[id].(outpoints := ops)) else t
  }

  function UpdateSignedTx(t: Tables, id: Id, bytes: seq<Byte>): Tables {
    if id in t.withdrawals then SetRow(t, id, t.withdrawals[id].(signedTx := bytes)) else t
  }

  // ----- balances -----

  function EventKey(wallet: Id, asset: string, block: int, eventId: string): string {
    Joined(wallet, asset, Signed10(block), eventId)
  }

  /** Four parts with separators in between. */
  function Joined(w: string, a: string, b: string, e: string): string { w + "|" + a + "|" + b + "|" + e }

  function Signed10(n: int): string { if n < 0 then "-" + Itoa(-n) else Itoa(n) }

  /** The asset has a number for a part other than its first: text, a separator,
      the number, and nothing or another separator. */
  predicate AssetCuts(asset: string, p: string, n: int, q: string) {
    asset == p + "|" + Signed10(n) + q && (q == "" || q[0] == '|')
  }

  /** The event id has a number for a part other than its last. */
  predicate EventCuts(eventId: string, p: string, n: int, q: string) {
    eventId == p + Signed10(n) + "|" + q && (p == "" || p[|p| - 1] == '|')
  }

  ghost predicate IsPlain(asset: string, eventId: string) {
    && (forall p, n, q :: !AssetCuts(asset, p, n, q))
    && (forall p, n, q :: !EventCuts(eventId, p, n, q))
  }

  lemma {:induction false} ItoaIsDigits(n: nat)
    ensures forall i :: 0 <= i < |Itoa(n)| ==> IsDigit(Itoa(n)[i])
  {
    if n >= 10 {
      ItoaIsDigits(n / 10);
    }
  }

  lemma NumberHasNoBar(n: int)
    ensures '|' !in Signed10(n)
  {
    ItoaIsDigits(if n < 0 then -n else n);
  }

  lemma NumberStarts(n: int)
    ensures Signed10(n) != "" && (n < 0 <==> Signed10(n)[0] == '-')
  {
    ItoaIsDigits(if n < 0 then -n else n);
  }

  lemma NumberInjective(m: int, n: int)
    requires Signed10(m) == Signed10(n)
    ensures m == n
  {
    NumberStarts(m);
    NumberStarts(n);
    if m < 0 {
      assert Signed10(m)[1..] == Itoa(-m) && Signed10(n)[1..] == Itoa(-n);
      ItoaInjective(-m, -n);
    } else {
      ItoaInjective(m, n);
    }
  }

  /** Two ways to cut the same text at a separator, the first one with the longer
      head: the rest of that head, then its tail, is the other tail. */
  lemma LongerHead(a: string, x: string, b: string, y: string) returns (r: string)
    requires a + "|" + x == b + "|" + y && |b| < |a|
    ensures a == b + "|" + r && y == r + "|" + x
  {
    var s := a + "|" + x;
    r := a[|b| + 1..];
    assert s[..|a|] == a && s[..|b|] == b && s[|b|] == '|';
    assert s[|b| + 1..] == y && s[|a| + 1..] == x;
    assert s[|b| + 1..] == s[|b| + 1..|a|] + [s[|a|]] + s[|a| + 1..];
  }

  /** When text without separators and a separator start `r + "|" + x`, they start
      inside `r`. */
  lemma HeadInside(b: string, e: string, r: string, x: string) returns (q: string)
    requires b + "|" + e == r + "|" + x && '|' !in b
    ensures r == b + q && (q == "" || q[0] == '|') && "|" + e == q + "|" + x
  {
    if |r| < |b| {
      var t := LongerHead(b, e, r, x);
      assert false;
    } else if |r| == |b| {
      var s := b + "|" + e;
      assert s[..|b|] == b && s[..|r|] == r && s[|b|..] == "|" + e && s[|r|..] == "|" + x;
      q := "";
    } else {
      var t := LongerHead(r, x, b, e);
      q := "|" + t;
    }
  }

  lemma LongerAssetCuts(a: string, x: string, a': string, m: string, e': string) returns (q: string)
    requires a + "|" + x == a' + "|" + (m + "|" + e') && |a'| < |a| && '|' !in m
    ensures a == a' + "|" + m + q && (q == "" || q[0] == '|')
  {
    var r := LongerHead(a, x, a', m + "|" + e');
    q := HeadInside(m, e', r, x);
    assert a == a' + "|" + (m + q);
  }

  lemma LongerEventCuts(a: string, m: string, e: string, a': string, m': string, e': string) returns (p: string)
    requires a + "|" + (m + "|" + e) == a' + "|" + (m' + "|" + e') && |a| < |a'| && '|' !in m
    ensures e == p + m' + "|" + e' && (p == "" || p[|p| - 1] == '|')
  {
    var x := m' + "|" + e';
    var r := LongerHead(a', x, a, m + "|" + e);
    var q := HeadInside(m, e, r, x);
    p := DropBar(q, e, x);
    assert p + x == p + m' + "|" + e';
  }

  lemma DropBar(q: string, e: string, x: string) returns (p: string)
    requires "|" + e == q + "|" + x
    ensures e == p + x && (p == "" || p[|p| - 1] == '|')
  {
    var s := q + "|";
    p := s[1..];
    assert e == ("|" + e)[1..] == (s + x)[1..] == p + x;
  }

  lemma SameLengthSplits(a: string, x: string, b: string, y: string)
    requires a + "|" + x == b + "|" + y && |a| == |b|
    ensures a == b && x == y
  {
    var s := a + "|" + x;
    assert s[..|a|] == a && s[..|b|] == b && s[|a| + 1..] == x && s[|b| + 1..] == y;
  }

  /** An event that another event shares its key with has a number in the asset or
      in the event id. */
  lemma TwinHasCut(a: string, n: int, e: string, a': string, n': int, e': string)
    requires a + "|" + (Signed10(n) + "|" + e) == a' + "|" + (Signed10(n') + "|" + e')
    ensures (a == a' && n == n' && e == e') || !IsPlain(a, e)
  {
    NumberHasNoBar(n);
    NumberHasNoBar(n');
    if |a'| < |a| {
      var q := LongerAssetCuts(a, Signed10(n) + "|" + e, a', Signed10(n'), e');
      assert AssetCuts(a, a', n', q);
    } else if |a| < |a'| {
      var p := LongerEventCuts(a, Signed10(n), e, a', Signed10(n'), e');
      assert EventCuts(e, p, n', e');
    } else {
      SameLengthSplits(a, Signed10(n) + "|" + e, a', Signed10(n') + "|" + e');
      JoinFirstInjective(Signed10(n), e, Signed10(n'), e', '|');
      NumberInjective(n, n');
    }
  }

  lemma CutInAsset(w: string, p: string, m: string, q: string, b: string, e: string) returns (e': string)
    requires q == "" || q[0] == '|'
    ensures Joined(w, p, m, e') == Joined(w, p + "|" + m + q, b, e)
  {
    var tail := q + "|" + b + "|" + e;
    e' := tail[1..];
    assert tail == "|" + e';
    assert Joined(w, p + "|" + m + q, b, e) == w + "|" + p + "|" + m + tail;
  }

  lemma CutInEvent(w: string, a: string, b: string, p: string, m: string, q: string) returns (a': string)
    requires p == "" || p[|p| - 1] == '|'
    ensures Joined(w, a', m, q) == Joined(w, a, b, p + m + "|" + q) && |a'| > |a|
  {
    var head := a + "|" + b + "|" + p;
    a' := head[..|head| - 1];
    assert head == a' + "|";
    assert w + "|" + head + m + "|" + q == Joined(w, a', m, q);
    assert Joined(w, a, b, p + m + "|" + q) == w + "|" + head + m + "|" + q;
  }

  /** Such a number can be taken for the block, and another event has the key. */
  lemma CutGivesTwin(wallet: Id, a: string, n: int, e: string) returns (a': string, n': int, e': string)
    requires !IsPlain(a, e)
    ensures EventKey(wallet, a', n', e') == EventKey(wallet, a, n, e) && a' != a
  {
    if p, m, q :| AssetCuts(a, p, m, q) {
      a', n' := p, m;
      e' := CutInAsset(wallet, p, Signed10(m), q, Signed10(n), e);
    } else {
      var p, m, q :| EventCuts(e, p, m, q);
      n', e' := m, q;
      a' := CutInEvent(wallet, a, Signed10(n), p, Signed10(m), q);
    }
  }

  lemma PlainKeyIsUnique(wallet: Id, a: string, n: int, e: string, w: Id, a': string, n': int, e': string)
    requires '|' !in wallet && '|' !in w && IsPlain(a, e) && EventKey(w, a', n', e') == EventKey(wallet, a, n, e)
    ensures w == wallet && a' == a && n' == n && e' == e
  {
    var x, y := a + "|" + (Signed10(n) + "|" + e), a' + "|" + (Signed10(n') + "|" + e');
    JoinedByFirst(wallet, a, Signed10(n), e);
    JoinedByFirst(w, a', Signed10(n'), e');
    JoinFirstInjective(wallet, x, w, y, '|');
    TwinHasCut(a, n, e, a', n', e');
  }

  lemma JoinedByFirst(w: string, a: string, b: string, e: string)
    ensures Joined(w, a, b, e) == w + "|" + (a + "|" + (b + "|" + e))
  {
  }

  /** Wallet ids hold no separator. An event's key then belongs to no other event
      if and only if no part of the asset but its first, and no part of the event
      id but its last, is a number. */
  lemma EventKeyUniqueIff(wallet: Id, a: string, n: int, e: string)
    requires '|' !in wallet
    ensures (forall w: Id, a', n', e' :: '|' !in w && EventKey(w, a', n', e') == EventKey(wallet, a, n, e) ==>
               w == wallet && a' == a && n' == n && e' == e)
       <==> IsPlain(a, e)
  {
    if IsPlain(a, e) {
      forall w: Id, a', n', e' | '|' !in w && EventKey(w, a', n', e') == EventKey(wallet, a, n, e)
        ensures w == wallet && a' == a && n' == n && e' == e
      {
        PlainKeyIsUnique(wallet, a, n, e, w, a', n', e');
      }
    } else {
      var a', n', e' := CutGivesTwin(wallet, a, n, e);
    }
  }

  // ----- audit outbox -----

  predicate FreshEvent(outbox: seq<AuditRow>, eventId: Id) {
    forall i :: 0 <= i < |outbox| ==> outbox[i].eventId != eventId
  }

  function Append(outbox: seq<AuditRow>, row: AuditRow): seq<AuditRow> {
    if FreshEvent(outbox, row.eventId) then outbox + [row] else outbox
  }

  /** A row is appended exactly when no row has its event id. */
  lemma AppendsIff(outbox: seq<AuditRow>, row: AuditRow)
    ensures (forall i :: 0 <= i < |outbox| ==> outbox[i].eventId != row.eventId) ==>
      FreshEvent(outbox, row.eventId) && Append(outbox, row) == outbox + [row]
    ensures (exists i :: 0 <= i < |outbox| && outbox[i].eventId == row.eventId) ==>
      !FreshEvent(outbox, row.eventId) && Append(outbox, row) == outbox
  {
  }

  predicate HasRow(outbox: seq<AuditRow>, id: Id) { exists i :: 0 <= i < |outbox| && outbox[i].id == id }

  function Delivered(row: AuditRow): AuditRow { row.(delivered := true, attempts := row.attempts + 1) }

  /** Marks the first row with the id. */
  function MarkDelivered(outbox: seq<AuditRow>, id: Id): (r: seq<AuditRow>)
    ensures |r| == |outbox|
  {
    if outbox == [] then []
    else if outbox[0].id == id then [Delivered(outbox[0])] + outbox[1..]
    else [outbox[0]] + MarkDelivered(outbox[1..], id)
  }

  function SeqOf(counters: map<Id, int>, wallet: Id): int {
    if wallet in counters then counters[wallet] else 0
  }

  function NextSeq(counters: map<Id, int>, wallet: Id): map<Id, int> {
    counters[wallet := SeqOf(counters, wallet) + 1]
  }

  // ----- key text -----

  /** The stored text key of a nonce or balance row splits back into its parts,
      so a table keyed by the pair is the same table. */
  lemma RowKeyInjective(v: Id, a: string, w: Id, b: string)
    requires '|' !in v && '|' !in w
    requires v + "|" + a == w + "|" + b
    ensures v == w && a == b
  {
    JoinFirstInjective(v, a, w, b, '|');
  }
}
