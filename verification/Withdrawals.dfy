/** The withdrawal service: every call as a function on the store's tables, and
    as a method that carries it out on the store. The policy engine, the key
    resolver, the signer and the gateway answer through parameters. */
module Withdrawals {
  import opened Text
  import opened Bytes
  import opened Records
  import opened MemStore
  import opened Rlp
  import opened Eip155
  import opened UtxoSelection
  import opened Nonces

  // ----- creation -----

  datatype Request = Request(wallet: Id, to: string, asset: string, amount: string)

  datatype Decision = Decision(approved: bool, id: string, reason: string)

  /** What the policy check answers: an error flag and perhaps a decision. */
  datatype Verdict = Verdict(failed: bool, decision: Option<Decision>)

  predicate Approves(v: Verdict) { !v.failed && v.decision.Some? && v.decision.value.approved }

  function ReasonOf(v: Verdict): string {
    if v.decision.Some? then OrKeep(v.decision.value.reason, "policy_error") else "policy_error"
  }

  function DecisionOf(v: Verdict): string { if v.decision.Some? then v.decision.value.id else "" }

  function NewRow(r: Request): Withdrawal {
    Withdrawal(r.wallet, r.to, r.asset, r.amount, Pending, "", "", "", None, [], [])
  }

  predicate Opens(t: Tables, id: Id, r: Request) {
    && r.wallet in t.wallets && t.wallets[r.wallet].state == InService
    && CanCreate(t, id, NewRow(r))
  }

  function Opened(t: Tables, id: Id, r: Request): Tables {
    if Opens(t, id, r) then CreateWithdrawal(t, id, NewRow(r)) else t
  }

  function Decided(t: Tables, id: Id, v: Verdict): Tables {
    if Approves(v) then UpdateStage(t, id, Whitelisted, "", "", DecisionOf(v))
    else UpdateStage(t, id, Failed, ReasonOf(v), "", DecisionOf(v))
  }

  method Decide(db: Db, id: Id, v: Verdict)
    requires db.Valid()
    modifies db.Repr
    ensures db.Valid() && fresh(db.Repr - old(db.Repr))
    ensures db.view == Decided(old(db.view), id, v)
  {
    if Approves(v) {
      var ok := db.UpdateWithdrawalState(id, Whitelisted, "", "", v.decision.value.id);
    } else {
      var ok := db.UpdateWithdrawalState(id, Failed, ReasonOf(v), "", DecisionOf(v));
    }
  }

  method Open(db: Db, id: Id, r: Request) returns (ok: bool)
    requires db.Valid()
    modifies db.Repr
    ensures db.Valid() && fresh(db.Repr - old(db.Repr))
    ensures db.view == Opened(old(db.view), id, r)
    ensures ok <==> Opens(old(db.view), id, r)
  {
    var wallet := db.GetWallet(r.wallet);
    if wallet.None? || wallet.value.state == Retired || wallet.value.state == Paused {
      return false;
    }
    ok := db.CreateWithdrawal(id, NewRow(r));
  }

  /** Stores the request, asks policy, and stores the verdict; the row handed
      back is the row stored. */
  method Create(db: Db, id: Id, r: Request, v: Verdict) returns (w: Option<Withdrawal>)
    requires db.Valid()
    modifies db.Repr
    ensures db.Valid() && fresh(db.Repr - old(db.Repr))
    ensures !Opens(old(db.view), id, r) ==> w == None && db.view == old(db.view)
    ensures Opens(old(db.view), id, r) ==>
      && db.view == Decided(Opened(old(db.view), id, r), id, v)
      && w == Some(db.view.withdrawals[id])
    ensures w.Some? <==>
      && r.wallet in old(db.view).wallets && old(db.view).wallets[r.wallet].state !in {Paused, Retired}
      && id !in old(db.view).withdrawals
      && (r.wallet + "|" + r.to + "|" + r.amount + "|" + r.asset) !in old(db.view).inflight
  {
    var ok := Open(db, id, r);
    if !ok {
      return None;
    }
    Decide(db, id, v);
    w := db.GetWithdrawal(id);
  }

  // ----- building and assembling a transaction -----

  /** The parts of transaction building that foreign libraries do. */
  datatype Codecs = Codecs(
    cfg: EvmConfig,
    btcBuilds: (string, int, seq<string>) -> bool,
    btcBytes: (string, int, seq<string>, seq<Byte>) -> Option<seq<Byte>>,
    solBuilds: (string, string) -> bool,
    solBytes: (string, string, seq<Byte>) -> seq<Byte>)

  /** What a signing call has reserved: a nonce, or -1, and outpoints. */
  datatype Hold = Hold(nonce: int, ops: seq<string>)

  predicate Builds(c: Codecs, chain: Chain, to: string, amount: string, h: Hold) {
    if IsEvm(chain) then
      && h.nonce < LIMIT && BuildTx(c.cfg, to, amount, h.nonce).Some?
      && Fits(SigningFields(BuildTx(c.cfg, to, amount, h.nonce).value, c.cfg.chainId))
    else if chain == Bitcoin then
      h.ops != [] && ParseInt64(amount).1 && c.btcBuilds(to, ParseInt64(amount).0, h.ops)
    else chain == Solana && c.solBuilds(to, amount)
  }

  function Assembles(c: Codecs, chain: Chain, to: string, amount: string, h: Hold, sig: seq<Byte>): Option<seq<Byte>>
    requires Builds(c, chain, to, amount, h)
  {
    if IsEvm(chain) then AssembleTx(c.cfg, BuildTx(c.cfg, to, amount, h.nonce).value, sig)
    else if chain == Bitcoin then
      if |sig| < 64 * |h.ops| then None else c.btcBytes(to, ParseInt64(amount).0, h.ops, sig)
    else if |sig| != 64 then None else Some(c.solBytes(to, amount, sig))
  }

  /** On an EVM chain, the bytes whose hash the signer is given. */
  function PreimageOf(c: Codecs, chain: Chain, to: string, amount: string, h: Hold): Option<seq<Byte>>
    requires Builds(c, chain, to, amount, h)
  {
    if IsEvm(chain) then Some(EncodeList(SigningFields(BuildTx(c.cfg, to, amount, h.nonce).value, c.cfg.chainId))) else None
  }

  /** What the signer was asked to sign and what it answered. */
  datatype Signing = Signing(preimage: Option<seq<Byte>>, signature: seq<Byte>)

  /** How far building, signing and assembling got. */
  datatype Outcome = NotBuilt | NotSigned | NotAssembled | Assembled(bytes: seq<Byte>, signing: Signing)

  function OutcomeOf(c: Codecs, chain: Chain, to: string, amount: string, h: Hold, signature: Option<seq<Byte>>): Outcome {
    if !Builds(c, chain, to, amount, h) then NotBuilt
    else if signature.None? then NotSigned
    else match Assembles(c, chain, to, amount, h, signature.value)
         case None => NotAssembled
         case Some(bytes) => Assembled(bytes, Signing(PreimageOf(c, chain, to, amount, h), signature.value))
  }

  /** The foreign builders of the two other chains accept the request. */
  predicate IsBuilt(c: Codecs, chain: Chain, to: string, amount: string, h: Hold) {
    match chain
    case Bitcoin => h.ops != [] && (match ParseDecimal(amount)
                                    case Some(n) => IsInt64(n) && c.btcBuilds(to, n, h.ops)
                                    case None => false)
    case Solana => c.solBuilds(to, amount)
    case _ => false
  }

  /** On bitcoin a call needs coins, a 64-bit amount and 64 signature bytes a coin; on
      Solana exactly 64 signature bytes; on an unknown chain nothing is built. */
  lemma OutcomeIff(c: Codecs, chain: Chain, to: string, amount: string, h: Hold, signature: Option<seq<Byte>>)
    requires chain !in {Ethereum, Polygon, Arbitrum, Base, Optimism}
    ensures var o := OutcomeOf(c, chain, to, amount, h, signature);
      && (o.NotBuilt? <==> !IsBuilt(c, chain, to, amount, h))
      && (o.NotSigned? <==> IsBuilt(c, chain, to, amount, h) && signature.None?)
      && (o.Assembled? ==>
            && o.signing == Signing(None, signature.value)
            && (if chain == Bitcoin
                then |signature.value| >= 64 * |h.ops|
                     && c.btcBytes(to, ParseDecimal(amount).value, h.ops, signature.value) == Some(o.bytes)
                else |signature.value| == 64 && o.bytes == c.solBytes(to, amount, signature.value)))
      && (o.NotAssembled? ==>
            if chain == Bitcoin
            then |signature.value| < 64 * |h.ops|
                 || c.btcBytes(to, ParseDecimal(amount).value, h.ops, signature.value).None?
            else |signature.value| != 64)
  {
    if chain == Bitcoin {
      assert ParseInt64(amount).1 ==> ParseDecimal(amount) == Some(ParseInt64(amount).0);
    }
  }

  /** On an EVM chain a call needs an address and an amount that parse and a nonce of
      64 bits, and then 65 signature bytes with a header from 27 to 34; the rest is
      size. */
  lemma EvmOutcomeIff(c: Codecs, chain: Chain, to: string, amount: string, h: Hold, signature: Option<seq<Byte>>)
    requires chain in {Ethereum, Polygon, Arbitrum, Base, Optimism}
    ensures var o := OutcomeOf(c, chain, to, amount, h, signature);
      var parses := h.nonce < 0x1_0000_0000_0000_0000 && EvmAddress.ParseAddress(to).Some? && ParseDecimal(amount).Some?;
      && (!o.NotBuilt? ==> parses)
      && (o.NotBuilt? && parses ==> !Fits(SigningFields(BuildTx(c.cfg, to, amount, h.nonce).value, c.cfg.chainId)))
      && (o.NotSigned? <==> !o.NotBuilt? && signature.None?)
      && (o.Assembled? ==> |signature.value| == 65 && 27 <= signature.value[0] <= 34)
      && (o.NotAssembled? && |signature.value| == 65 && 27 <= signature.value[0] <= 34 ==>
            !Fits(SignedFields(BuildTx(c.cfg, to, amount, h.nonce).value, SigFromMpc(signature.value, c.cfg.chainId).value)))
  {
  }

  // ----- signing -----

  predicate Signable(t: Tables, id: Id) {
    HasAccount(t, id) && t.withdrawals[id].stage == Whitelisted
  }

  predicate HasAccount(t: Tables, id: Id) { id in t.withdrawals && t.withdrawals[id].wallet in t.wallets }

  /** The wallet of a withdrawal and its chain, which also name its counters. */
  function AccountOf(t: Tables, id: Id): NonceKey
    requires HasAccount(t, id)
  {
    (t.withdrawals[id].wallet, t.wallets[t.withdrawals[id].wallet].chain)
  }

  /** The outpoints a listing leads to. The parse error of the amount is ignored
      here, so unparsable text asks for nothing. */
  function Wanted(t: Tables, w: Withdrawal, order: seq<string>): Option<seq<string>>
    requires IsListing(t.utxos, w.wallet, order)
  {
    Choose(t.utxos, order, ParseInt64(w.amount).0)
  }

  /** Takes the next nonce and writes it on the row. */
  function TakeNonce(t: Tables, id: Id, k: NonceKey, n: int): Tables {
    UpdateNonce(t.(nonces := IncrementPending(t.nonces, k)), id, n)
  }

  /** Locks the wanted outpoints and writes them on the row. A failed selection
      rolls back the nonce it never took. */
  function TakeCoins(t: Tables, id: Id, k: NonceKey, wanted: Option<seq<string>>, free: bool): (Tables, Option<Hold>) {
    if free && wanted.Some?
    then (UpdateOutpoints(t.(utxos := RelockAll(t.utxos, wanted.value, Locked, None)), id, wanted.value), Some(Hold(-1, wanted.value)))
    else (t.(nonces := RollbackPending(t.nonces, k, -1)), None)
  }

  predicate CanTake(us: map<string, Utxo>, wanted: Option<seq<string>>) { wanted.Some? && AllFree(us, wanted.value) }

  /** Reserves what the chain needs: a nonce, or all the wanted outpoints. */
  function Reserve(t: Tables, id: Id, k: NonceKey, granted: bool, wanted: Option<seq<string>>): (Tables, Option<Hold>) {
    if IsEvm(k.1) then
      var n := NonceAt(t.nonces, k).pending;
      if granted then (TakeNonce(t, id, k, n), Some(Hold(n, []))) else (t, None)
    else if k.1 == Bitcoin then TakeCoins(t, id, k, wanted, CanTake(t.utxos, wanted))
    else (t, Some(Hold(-1, [])))
  }

  function RolledBack(t: Tables, k: NonceKey, h: Hold): Tables {
    t.(nonces := if h.nonce >= 0 && IsEvm(k.1) then RollbackPending(t.nonces, k, h.nonce) else t.nonces,
       utxos := if h.ops != [] then Restore(t.utxos, h.ops) else t.utxos)
  }

  function FailedWith(t: Tables, id: Id, k: NonceKey, h: Hold, reason: string): Tables {
    UpdateStage(RolledBack(t, k, h), id, Failed, reason, "", "")
  }

  /** Stores the assembled bytes, or gives back what was reserved. */
  function Finish(t: Tables, id: Id, k: NonceKey, h: Hold, o: Outcome): Tables {
    match o
    case NotBuilt => RolledBack(t, k, h)
    case NotSigned => FailedWith(t, id, k, h, "sign_failed")
    case NotAssembled => FailedWith(t, id, k, h, "assemble_failed")
    case Assembled(bytes, _) => UpdateStage(UpdateSignedTx(t, id, bytes), id, Signed, "", "", "")
  }

  /** The whole call, with nothing running in between. */
  function Construct(t: Tables, id: Id, k: NonceKey, w: Withdrawal, c: Codecs, granted: bool, wanted: Option<seq<string>>,
                     signature: Option<seq<Byte>>): (Tables, bool) {
    var (held, h) := Reserve(t, id, k, granted, wanted);
    if h.None? then (held, false)
    else
      var o := OutcomeOf(c, k.1, w.to, w.amount, h.value, signature);
      (Finish(held, id, k, h.value, o), o.Assembled?)
  }

  method ReserveFor(db: Db, id: Id, k: NonceKey, w: Withdrawal, replies: seq<LockReply>)
    returns (h: Option<Hold>, ghost wanted: Option<seq<string>>, ghost order: seq<string>)
    requires db.Valid() && |replies| == RETRIES && w.wallet == k.0
    modifies db.Repr
    ensures db.Valid() && fresh(db.Repr - old(db.Repr))
    ensures (db.view, h) == Reserve(old(db.view), id, k, Decisive(replies) == Some(Granted), wanted)
    ensures k.1 == Bitcoin ==> IsListing(old(db.view).utxos, w.wallet, order) && wanted == Wanted(old(db.view), w, order)
  {
    wanted, order := None, [];
    if IsEvm(k.1) {
      var n := ReserveNonce(db, k, replies);
      if !n.Reserved? {
        return None, wanted, order;
      }
      var ok := db.UpdateWithdrawalNonce(id, n.nonce);
      return Some(Hold(n.nonce, [])), wanted, order;
    }
    if k.1 == Bitcoin {
      var ops;
      ops, order := SelectForAmount(db, w.wallet, ParseInt64(w.amount).0);
      wanted := ops;
      if ops.None? {
        var affected := db.RollbackPendingNonce(k, -1);
        return None, wanted, order;
      }
      var ok := db.UpdateWithdrawalOutpoints(id, ops.value);
      return Some(Hold(-1, ops.value)), wanted, order;
    }
    return Some(Hold(-1, [])), wanted, order;
  }

  method Rollback(db: Db, k: NonceKey, h: Hold)
    requires db.Valid()
    modifies db.Repr
    ensures db.Valid() && fresh(db.Repr - old(db.Repr))
    ensures db.view == RolledBack(old(db.view), k, h)
  {
    if h.nonce >= 0 && IsEvm(k.1) {
      var affected := db.RollbackPendingNonce(k, h.nonce);
    }
    if h.ops != [] {
      var ok := db.RestoreUTXOs(h.ops);
    }
  }

  method FailWith(db: Db, id: Id, k: NonceKey, h: Hold, reason: string) returns (ok: bool)
    requires db.Valid()
    modifies db.Repr
    ensures db.Valid() && fresh(db.Repr - old(db.Repr))
    ensures db.view == FailedWith(old(db.view), id, k, h, reason)
    ensures ok <==> id in old(db.view).withdrawals
  {
    Rollback(db, k, h);
    ok := db.UpdateWithdrawalState(id, Failed, reason, "", "");
  }

  method FinishFor(db: Db, id: Id, k: NonceKey, h: Hold, o: Outcome)
    requires db.Valid()
    modifies db.Repr
    ensures db.Valid() && fresh(db.Repr - old(db.Repr))
    ensures db.view == Finish(old(db.view), id, k, h, o)
  {
    match o
    case NotBuilt => Rollback(db, k, h);
    case NotSigned => var ok := FailWith(db, id, k, h, "sign_failed");
    case NotAssembled => var ok := FailWith(db, id, k, h, "assemble_failed");
    case Assembled(bytes, _) =>
      var ok := db.UpdateWithdrawalSignedTx(id, bytes);
      ok := db.UpdateWithdrawalState(id, Signed, "", "", "");
  }

  method SignFor(db: Db, id: Id, k: NonceKey, w: Withdrawal, c: Codecs, replies: seq<LockReply>, signature: Option<seq<Byte>>)
    returns (ok: bool, ghost wanted: Option<seq<string>>, ghost order: seq<string>)
    requires db.Valid() && |replies| == RETRIES && w.wallet == k.0
    modifies db.Repr
    ensures db.Valid() && fresh(db.Repr - old(db.Repr))
    ensures (db.view, ok) == Construct(old(db.view), id, k, w, c, Decisive(replies) == Some(Granted), wanted, signature)
    ensures k.1 == Bitcoin ==> IsListing(old(db.view).utxos, w.wallet, order) && wanted == Wanted(old(db.view), w, order)
  {
    var h;
    h, wanted, order := ReserveFor(db, id, k, w, replies);
    if h.None? {
      return false, wanted, order;
    }
    var o := OutcomeOf(c, k.1, w.to, w.amount, h.value, signature);
    FinishFor(db, id, k, h.value, o);
    ok := o.Assembled?;
  }

  /** The row in the expected stage and its account. */
  method Find(db: Db, id: Id, stage: Stage) returns (r: Option<(Withdrawal, NonceKey)>)
    requires db.Valid()
    ensures r.Some? <==> HasAccount(db.view, id) && db.view.withdrawals[id].stage == stage
    ensures r.Some? ==> r.value == (db.view.withdrawals[id], AccountOf(db.view, id))
  {
    var w := db.GetWithdrawal(id);
    if w.None? || w.value.stage != stage {
      return None;
    }
    var wallet := db.GetWallet(w.value.wallet);
    if wallet.None? {
      return None;
    }
    return Some((w.value, (w.value.wallet, wallet.value.chain)));
  }

  /** Reserves a nonce or coins, builds, signs, and stores the assembled bytes. */
  method ConstructAndSign(db: Db, id: Id, c: Codecs, keyFails: bool, replies: seq<LockReply>, signature: Option<seq<Byte>>)
    returns (ok: bool, ghost wanted: Option<seq<string>>, ghost order: seq<string>)
    requires db.Valid() && |replies| == RETRIES
    modifies db.Repr
    ensures db.Valid() && fresh(db.Repr - old(db.Repr))
    ensures keyFails || !Signable(old(db.view), id) ==> !ok && db.view == old(db.view)
    ensures !keyFails && Signable(old(db.view), id) ==>
      var t := old(db.view); var w, k := t.withdrawals[id], AccountOf(t, id);
      && (db.view, ok) == Construct(t, id, k, w, c, Decisive(replies) == Some(Granted), wanted, signature)
      && (k.1 == Bitcoin ==> IsListing(t.utxos, w.wallet, order) && wanted == Wanted(t, w, order))
  {
    wanted, order := None, [];
    var found := Find(db, id, Whitelisted);
    if found.None? || keyFails {
      return false, wanted, order;
    }
    ok, wanted, order := SignFor(db, id, found.value.1, found.value.0, c, replies, signature);
  }

  // ----- broadcast -----

  predicate Sendable(t: Tables, id: Id) {
    HasAccount(t, id) && t.withdrawals[id].stage == Signed && t.withdrawals[id].signedTx != []
  }

  /** The reservation a stored row records. */
  function HoldOn(w: Withdrawal): Hold { Hold(if w.nonce.Some? then w.nonce.value else -1, w.outpoints) }

  function Settled(t: Tables, k: NonceKey, w: Withdrawal, txHash: string): Tables {
    t.(utxos := if k.1 == Bitcoin && w.outpoints != [] then MarkSpent(t.utxos, w.outpoints, txHash) else t.utxos,
       nonces := if IsEvm(k.1) && w.nonce.Some? then AdvanceBroadcast(t.nonces, k, w.nonce.value) else t.nonces)
  }

  /** The gateway answers with a transaction hash or refuses. */
  function AfterDelivery(t: Tables, id: Id, k: NonceKey, w: Withdrawal, txHash: Option<string>): Tables {
    if txHash.None? then FailedWith(t, id, k, HoldOn(w), "broadcast_failed")
    else UpdateStage(Settled(t, k, w, txHash.value), id, Broadcast, "", txHash.value, "")
  }

  method Settle(db: Db, k: NonceKey, w: Withdrawal, txHash: string)
    requires db.Valid()
    modifies db.Repr
    ensures db.Valid() && fresh(db.Repr - old(db.Repr))
    ensures db.view == Settled(old(db.view), k, w, txHash)
  {
    if k.1 == Bitcoin && w.outpoints != [] {
      var ok := db.MarkUTXOsSpent(w.outpoints, txHash);
    }
    if IsEvm(k.1) && w.nonce.Some? {
      db.AdvanceBroadcastNonce(k, w.nonce.value);
    }
  }

  method Deliver(db: Db, id: Id, k: NonceKey, w: Withdrawal, txHash: Option<string>)
    requires db.Valid()
    modifies db.Repr
    ensures db.Valid() && fresh(db.Repr - old(db.Repr))
    ensures db.view == AfterDelivery(old(db.view), id, k, w, txHash)
  {
    if txHash.None? {
      var ok := FailWith(db, id, k, HoldOn(w), "broadcast_failed");
    } else {
      Settle(db, k, w, txHash.value);
      var ok := db.UpdateWithdrawalState(id, Broadcast, "", txHash.value, "");
    }
  }

  /** Hands the stored bytes to the gateway; `payload` is what it received. */
  method BroadcastTx(db: Db, id: Id, txHash: Option<string>) returns (ok: bool, payload: Option<seq<Byte>>)
    requires db.Valid()
    modifies db.Repr
    ensures db.Valid() && fresh(db.Repr - old(db.Repr))
    ensures !Sendable(old(db.view), id) ==> !ok && payload == None && db.view == old(db.view)
    ensures Sendable(old(db.view), id) ==>
      && db.view == AfterDelivery(old(db.view), id, AccountOf(old(db.view), id), old(db.view).withdrawals[id], txHash)
      && payload == Some(old(db.view).withdrawals[id].signedTx) && ok == txHash.Some?
  {
    var found := Find(db, id, Signed);
    if found.None? || found.value.0.signedTx == [] {
      return false, None;
    }
    Deliver(db, id, found.value.1, found.value.0, txHash);
    return txHash.Some?, Some(found.value.0.signedTx);
  }

  // ----- confirmation, failure, reorganisation -----

  function ConfirmedTx(t: Tables, id: Id, txHash: string): Tables {
    if id in t.withdrawals && t.withdrawals[id].stage == Broadcast
    then UpdateStage(t, id, Confirmed, "", txHash, "") else t
  }

  method Confirm(db: Db, id: Id, txHash: string) returns (ok: bool)
    requires db.Valid()
    modifies db.Repr
    ensures db.Valid() && fresh(db.Repr - old(db.Repr))
    ensures db.view == ConfirmedTx(old(db.view), id, txHash)
    ensures ok <==> id in old(db.view).withdrawals && old(db.view).withdrawals[id].stage == Broadcast
  {
    var w := db.GetWithdrawal(id);
    if w.None? || w.value.stage != Broadcast {
      return false;
    }
    ok := db.UpdateWithdrawalState(id, Confirmed, "", txHash, "");
  }

  /** Gives back the nonce on the row but no outpoint, whatever the stage was. */
  function FailedTx(t: Tables, id: Id, reason: string): Tables
    requires HasAccount(t, id)
  {
    FailedWith(t, id, AccountOf(t, id), HoldOn(t.withdrawals[id]).(ops := []), reason)
  }

  method Fail(db: Db, id: Id, reason: string) returns (ok: bool)
    requires db.Valid()
    modifies db.Repr
    ensures db.Valid() && fresh(db.Repr - old(db.Repr))
    ensures ok <==> HasAccount(old(db.view), id)
    ensures db.view == if ok then FailedTx(old(db.view), id, reason) else old(db.view)
  {
    var w := db.GetWithdrawal(id);
    if w.None? {
      return false;
    }
    var wallet := db.GetWallet(w.value.wallet);
    if wallet.None? {
      return false;
    }
    ok := FailWith(db, id, (w.value.wallet, wallet.value.chain), HoldOn(w.value).(ops := []), reason);
  }

  /** Frees the named outpoints; with all of them known it also demotes a
      confirmed withdrawal. */
  function Reorged(t: Tables, id: Id, ops: seq<string>): Tables {
    Demoted(t.(utxos := Restore(t.utxos, ops)), id, AllKnown(t.utxos, ops))
  }

  function Demoted(t: Tables, id: Id, known: bool): Tables {
    if known && id in t.withdrawals && t.withdrawals[id].stage == Confirmed
    then UpdateStage(t, id, Broadcast, "reorg", "", "") else t
  }

  method OnReorg(db: Db, id: Id, ops: seq<string>) returns (ok: bool)
    requires db.Valid()
    modifies db.Repr
    ensures db.Valid() && fresh(db.Repr - old(db.Repr))
    ensures ok <==> id in old(db.view).withdrawals && AllKnown(old(db.view).utxos, ops)
    ensures db.view == if id in old(db.view).withdrawals then Reorged(old(db.view), id, ops) else old(db.view)
  {
    var w := db.GetWithdrawal(id);
    if w.None? {
      return false;
    }
    ok := db.RestoreUTXOs(ops);
    if ok && w.value.stage == Confirmed {
      ok := db.UpdateWithdrawalState(id, Broadcast, "reorg", "", "");
    }
  }
}
