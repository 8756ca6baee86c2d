/** Runs from an empty store that reach each state the other files warn about. */
module SagaWitnesses {
  import opened Text
  import opened Bytes
  import opened Records
  import opened Greedy
  import opened UtxoSelection
  import opened Rlp
  import opened Eip155
  import opened Withdrawals
  import opened Saga
  import opened SagaReal
  import opened SagaOutpoints
  import opened SagaNonces
  import opened SagaDedup
  import opened SagaCoverage
  import opened SagaAccepted
  import opened SagaPayments
  import opened SagaStranded

  const YES := Verdict(false, Some(Decision(true, "", "")))
  const NO := Verdict(true, None)

  /** Which steps can be taken where. */
  type Rule = (World, Step) -> bool

  /** A rule that restrains choosing and finishing only, and lets a call that needs
      no coins choose none. */
  ghost predicate Easy(rule: Rule) {
    forall w, s :: rule(w, s) || s.FinishStep? || (s.ListStep? && CanList(w, s.id) && Restrained(w, s))
  }

  predicate Restrained(w: World, s: Step)
    requires s.ListStep? && CanList(w, s.id)
  {
    s.wanted.Some? || AccountOf(w.t, s.id).1 == Bitcoin
  }

  /** The rule of the code. */
  ghost function RuleOf(c: Codecs): Rule { (w: World, s: Step) => Real(c, w, s) }

  /** A run with the worlds it passes through. */
  datatype Trace = Trace(worlds: seq<World>, steps: seq<Step>)

  predicate StepAt(rule: Rule, tr: Trace, i: int) {
    0 <= i < |tr.steps| < |tr.worlds| ==>
      tr.worlds[i + 1] == Next(tr.worlds[i], tr.steps[i]) && !tr.steps[i].PruneStep? && rule(tr.worlds[i], tr.steps[i])
  }

  ghost predicate IsTrace(rule: Rule, tr: Trace) {
    |tr.worlds| == |tr.steps| + 1 && forall i :: StepAt(rule, tr, i)
  }

  /** The trace follows the rule from an empty store to this world, and prunes
      nothing. */
  ghost predicate Reached(rule: Rule, tr: Trace, w: World) {
    Easy(rule) && IsTrace(rule, tr) && tr.worlds[0] == START && tr.worlds[|tr.steps|] == w
  }

  lemma {:induction false} TraceIsRun(c: Codecs, tr: Trace)
    requires IsTrace(RuleOf(c), tr)
    ensures Run(tr.worlds[0], tr.steps) == tr.worlds[|tr.steps|] && RealRun(c, tr.worlds[0], tr.steps)
    ensures FrugalRun(tr.worlds[0], tr.steps)
    decreases |tr.steps|
  {
    if tr.steps != [] {
      var rest := Trace(tr.worlds[1..], tr.steps[1..]);
      forall i ensures StepAt(RuleOf(c), rest, i) {
        assert StepAt(RuleOf(c), tr, i + 1);
      }
      assert StepAt(RuleOf(c), tr, 0);
      TraceIsRun(c, rest);
    }
  }

  /** An empty trace. */
  lemma Begin(c: Codecs) returns (tr: Trace)
    ensures Reached(RuleOf(c), tr, START)
  {
    tr := Trace([START], []);
    forall i ensures StepAt(RuleOf(c), tr, i) {}
    forall w, s ensures RuleOf(c)(w, s) || s.FinishStep? || (s.ListStep? && CanList(w, s.id) && Restrained(w, s)) {}
  }

  /** One step further. */
  lemma Then(rule: Rule, tr: Trace, w: World, s: Step) returns (tr': Trace, w': World)
    requires Reached(rule, tr, w) && !s.PruneStep? && rule(w, s)
    ensures Reached(rule, tr', w') && w' == Next(w, s)
  {
    w' := Next(w, s);
    tr' := Trace(tr.worlds + [w'], tr.steps + [s]);
    forall i ensures StepAt(rule, tr', i) {
      assert StepAt(rule, tr, i);
    }
  }

  /** The steps of a trace are a real run. */
  lemma Steps(c: Codecs, tr: Trace, w: World) returns (steps: seq<Step>)
    requires Reached(RuleOf(c), tr, w)
    ensures w == Run(START, steps) && RealRun(c, START, steps) && FrugalRun(START, steps)
  {
    TraceIsRun(c, tr);
    steps := tr.steps;
  }

  function Ask(to: string, amount: string): Request { Request("v", to, "e", amount) }

  /** A wallet alone in the store. */
  predicate OnlyWallet(w: World, chain: Chain) {
    && w.t.wallets == map["v" := Wallet(chain, InService)] && w.t.withdrawals == map[] && w.t.nonces == map[]
    && w.t.utxos == map[] && w.t.inflight == {} && w.calls == map[]
  }

  lemma WithWallet(rule: Rule, tr: Trace, chain: Chain) returns (tr': Trace, w: World)
    requires Reached(rule, tr, START)
    ensures Reached(rule, tr', w) && OnlyWallet(w, chain)
  {
    tr', w := Then(rule, tr, START, AddWallet("v", Wallet(chain, InService)));
  }

  function DecidedRow(r: Request, v: Verdict): Withdrawal {
    if Approves(v) then WithStage(NewRow(r), Whitelisted, "", "", DecisionOf(v))
    else WithStage(NewRow(r), Failed, ReasonOf(v), "", DecisionOf(v))
  }

  lemma OpenNow(w: World, id: Id, r: Request)
    requires Opens(w.t, id, r) && id !in w.calls
    ensures DoOpen(w, id, r) == w.(
      t := w.t.(withdrawals := w.t.withdrawals[id := NewRow(r)], inflight := w.t.inflight + {DedupKey(NewRow(r))}),
      calls := w.calls[id := Deciding])
  {
  }

  /** The tables after deciding what was just opened. */
  lemma DecideTables(t: Tables, id: Id, r: Request, v: Verdict)
    requires id !in t.withdrawals && DedupKey(NewRow(r)) !in t.inflight
    ensures Decided(t.(withdrawals := t.withdrawals[id := NewRow(r)], inflight := t.inflight + {DedupKey(NewRow(r))}), id, v)
      == t.(withdrawals := t.withdrawals[id := DecidedRow(r, v)],
            inflight := if Approves(v) then t.inflight + {DedupKey(NewRow(r))} else t.inflight)
  {
    var row, key := NewRow(r), DedupKey(NewRow(r));
    assert t.withdrawals[id := row][id := DecidedRow(r, v)] == t.withdrawals[id := DecidedRow(r, v)];
    assert t.inflight + {key} - {key} == t.inflight;
  }

  /** Opens a request on that wallet and gets it decided. */
  lemma Opening(rule: Rule, tr: Trace, w: World, id: Id, r: Request, v: Verdict)
    returns (tr': Trace, w': World)
    requires Reached(rule, tr, w) && Opens(w.t, id, r) && id !in w.calls
    ensures Reached(rule, tr', w') && w'.calls == w.calls && w'.sent == w.sent
    ensures w'.t == w.t.(withdrawals := w.t.withdrawals[id := DecidedRow(r, v)],
                         inflight := if Approves(v) then w.t.inflight + {DedupKey(NewRow(r))} else w.t.inflight)
  {
    OpenNow(w, id, r);
    DecideTables(w.t, id, r, v);
    var s1, w1 := Then(rule, tr, w, OpenStep(id, r));
    tr', w' := Then(rule, s1, w1, DecideStep(id, v));
    assert w1.calls - {id} == w.calls;
  }

  // ----- deduplication -----

  /** A refused request and a second one for the same payment: failing the first
      again takes the second one's key. */
  lemma SharedKeyIsReachable(c: Codecs) returns (steps: seq<Step>)
    ensures var w := Run(START, steps);
      && RealRun(c, START, steps)
      && "a" !in w.calls && HasAccount(w.t, "a") && !InFlight(Row(w, "a")) && DedupKey(Row(w, "a")) in w.t.inflight
  {
    var rule := RuleOf(c);
    var tr := Begin(c);
    var w;
    tr, w := WithWallet(rule, tr, Ethereum);
    tr, w := Opening(rule, tr, w, "a", Ask("r", "1"), NO);
    tr, w := Opening(rule, tr, w, "b", Ask("r", "1"), YES);
    assert DedupKey(Row(w, "a")) == DedupKey(NewRow(Ask("r", "1")));
    steps := Steps(c, tr, w);
  }

  // ----- nonces -----

  /** What does not build gives its nonce back. */
  lemma NotBuilding(rule: Rule, tr: Trace, w: World, id: Id)
    returns (tr': Trace, w': World)
    requires Reached(rule, tr, w) && CanFinish(w, id) && rule(w, FinishStep(id, NotBuilt))
    ensures Reached(rule, tr', w')
    ensures w'.t == RolledBack(w.t, AccountOf(w.t, id), w.calls[id].hold) && w'.calls == w.calls - {id}
  {
    tr', w' := Then(rule, tr, w, FinishStep(id, NotBuilt));
  }

  /** An amount that does not parse builds nothing. */
  lemma XDoesNotBuild(c: Codecs, w: World, id: Id)
    requires CanFinish(w, id) && IsEvm(AccountOf(w.t, id).1) && Row(w, id).amount == "x"
    ensures Real(c, w, FinishStep(id, NotBuilt))
  {
    assert !IsDigit("x"[0]) && ParseDecimal("x").None?;
    assert OutcomeFor(c, w, id, None) == NotBuilt;
  }

  /** A call that failed to build leaves its row with a nonce the next call takes;
      failing the first withdrawal then robs the second. */
  lemma TheftIsReachable(c: Codecs) returns (steps: seq<Step>)
    ensures RealRun(c, START, steps) && StealsNonce(Run(START, steps), "a")
  {
    var tr, w;
    tr, w := FirstCallGivesUp(c);
    tr, w := SecondCall(RuleOf(c), tr, w);
    assert HasNonce(w, "b", ("v", Ethereum), 0);
    steps := Steps(c, tr, w);
  }

  lemma FirstCallGivesUp(c: Codecs) returns (tr: Trace, w: World)
    ensures Reached(RuleOf(c), tr, w) && w.calls == map[]
    ensures w.t.wallets == map["v" := Wallet(Ethereum, InService)]
    ensures w.t.withdrawals.Keys == {"a"} && Row(w, "a").wallet == "v" && Row(w, "a").nonce == Some(0)
    ensures w.t.inflight == {DedupKey(NewRow(Ask("r", "x")))} && NonceAt(w.t.nonces, ("v", Ethereum)).pending == 0
  {
    tr := Begin(c);
    tr, w := WithWallet(RuleOf(c), tr, Ethereum);
    tr, w := Reserving(RuleOf(c), tr, w, "a", Ask("r", "x"));
    XDoesNotBuild(c, w, "a");
    tr, w := NotBuilding(RuleOf(c), tr, w, "a");
    assert w.calls == map[];
  }

  lemma KeysDiffer()
    ensures DedupKey(NewRow(Ask("s", "x"))) != DedupKey(NewRow(Ask("r", "x")))
  {
    assert DedupKey(NewRow(Ask("s", "x")))[2] == 's' && DedupKey(NewRow(Ask("r", "x")))[2] == 'r';
  }

  /** What listing and then taking a nonce leaves. */
  function Took(w: World, id: Id, k: NonceKey): World
    requires id in w.t.withdrawals
  {
    var n := NonceAt(w.t.nonces, k).pending;
    w.(t := w.t.(nonces := IncrementPending(w.t.nonces, k), withdrawals := w.t.withdrawals[id := Row(w, id).(nonce := Some(n))]),
       calls := w.calls[id := Holding(Hold(n, []))])
  }

  lemma Taking(rule: Rule, tr: Trace, w: World, id: Id)
    returns (tr': Trace, w': World)
    requires Reached(rule, tr, w) && id !in w.calls && Signable(w.t, id) && IsEvm(AccountOf(w.t, id).1)
    ensures Reached(rule, tr', w') && w' == Took(w, id, AccountOf(w.t, id))
  {
    var s1, w1 := Then(rule, tr, w, ListStep(id, None));
    tr', w' := Then(rule, s1, w1, ReserveStep(id, true));
  }

  /** Opens, approves and reserves on an EVM wallet in one go. */
  lemma Reserving(rule: Rule, tr: Trace, w: World, id: Id, r: Request)
    returns (tr': Trace, w': World)
    requires Reached(rule, tr, w) && Opens(w.t, id, r) && id !in w.calls && IsEvm(w.t.wallets[r.wallet].chain)
    ensures Reached(rule, tr', w') && w'.t.wallets == w.t.wallets
    ensures var k := (r.wallet, w.t.wallets[r.wallet].chain); var n := NonceAt(w.t.nonces, k).pending;
      && w'.calls == w.calls[id := Holding(Hold(n, []))]
      && w'.t.withdrawals == w.t.withdrawals[id := DecidedRow(r, YES).(nonce := Some(n))]
      && w'.t.nonces == IncrementPending(w.t.nonces, k) && w'.t.inflight == w.t.inflight + {DedupKey(NewRow(r))}
  {
    var s1, w1 := Opening(rule, tr, w, id, r, YES);
    tr', w' := Taking(rule, s1, w1, id);
    assert w.t.withdrawals[id := DecidedRow(r, YES)][id := w'.t.withdrawals[id]] == w.t.withdrawals[id := w'.t.withdrawals[id]];
  }

  lemma SecondCall(rule: Rule, tr: Trace, w: World) returns (tr': Trace, w': World)
    requires Reached(rule, tr, w) && w.calls == map[]
    requires w.t.wallets == map["v" := Wallet(Ethereum, InService)] && "b" !in w.t.withdrawals
    requires w.t.inflight == {DedupKey(NewRow(Ask("r", "x")))} && NonceAt(w.t.nonces, ("v", Ethereum)).pending == 0
    ensures Reached(rule, tr', w') && w'.t.wallets == w.t.wallets && w'.calls == map["b" := Holding(Hold(0, []))]
    ensures w'.t.withdrawals == w.t.withdrawals["b" := DecidedRow(Ask("s", "x"), YES).(nonce := Some(0))]
    ensures NonceAt(w'.t.nonces, ("v", Ethereum)).pending == 1
  {
    KeysDiffer();
    tr', w' := Reserving(rule, tr, w, "b", Ask("s", "x"));
  }

  // ----- coins -----

  lemma Tracking(rule: Rule, tr: Trace, w: World, op: string, value: string)
    returns (tr': Trace, w': World)
    requires Reached(rule, tr, w) && op !in w.t.utxos
    ensures Reached(rule, tr', w')
    ensures w' == w.(t := w.t.(utxos := w.t.utxos[op := Utxo("v", value, Free, "")]))
  {
    tr', w' := Then(rule, tr, w, Track(op, Utxo("v", value, Free, "")));
  }

  lemma ListingCoins(rule: Rule, tr: Trace, w: World, id: Id, ops: seq<string>)
    returns (tr': Trace, w': World)
    requires Reached(rule, tr, w) && CanList(w, id) && rule(w, ListStep(id, Some(ops)))
    ensures Reached(rule, tr', w') && w' == w.(calls := w.calls[id := Choosing(Some(ops))])
  {
    tr', w' := Then(rule, tr, w, ListStep(id, Some(ops)));
  }

  lemma TakingCoins(rule: Rule, tr: Trace, w: World, id: Id, ops: seq<string>)
    returns (tr': Trace, w': World)
    requires Reached(rule, tr, w) && Running(w, id) && AccountOf(w.t, id).1 == Bitcoin
    requires w.calls[id] == Choosing(Some(ops)) && AllFree(w.t.utxos, ops)
    ensures Reached(rule, tr', w') && w'.calls == w.calls[id := Holding(Hold(-1, ops))]
    ensures w'.t == w.t.(utxos := RelockAll(w.t.utxos, ops, Locked, None),
                         withdrawals := w.t.withdrawals[id := Row(w, id).(outpoints := ops)])
  {
    tr', w' := Then(rule, tr, w, ReserveStep(id, true));
  }

  lemma ParseDigit(d: char)
    requires IsDigit(d)
    ensures ParseInt64([d]) == (d as int - '0' as int, true)
  {
    assert [d][..0] == "";
    assert DigitsValue([d]) == 10 * DigitsValue("") + (d as int - '0' as int);
  }

  /** One coin worth five is chosen for an amount of three. */
  lemma ChooseOne(us: map<string, Utxo>, op: string)
    requires us == map[op := Utxo("v", "5", Free, "")]
    ensures IsListing(us, "v", [op]) && Choose(us, [op], 3) == Some([op])
  {
    ParseDigit('5');
    assert Values(us)[op] == 5;
    var vals := Vals(Values(us), [op]);
    assert vals == [5];
    assert Loop64(vals, 3, 1, Wrap(5)) == (1, 5);
    assert Loop64(vals, 3, 0, 0) == (1, 5);
    assert [op][..1] == [op];
  }

  /** Two requests on a wallet with the given coins, the first one refused. */
  lemma TwoRequests(rule: Rule, tr: Trace, w: World, to: string, amount: string)
    returns (tr': Trace, w': World)
    requires Reached(rule, tr, w) && w.t.wallets == map["v" := Wallet(Bitcoin, InService)]
    requires w.t.withdrawals == map[] && w.t.inflight == {} && w.calls == map[]
    ensures Reached(rule, tr', w') && w'.t.wallets == w.t.wallets && w'.t.utxos == w.t.utxos && w'.calls == map[]
    ensures w'.t.withdrawals == map["b" := DecidedRow(Ask(to, amount), NO), "a" := DecidedRow(Ask(to, amount), YES)]
  {
    tr', w' := Opening(rule, tr, w, "b", Ask(to, amount), NO);
    tr', w' := Opening(rule, tr', w', "a", Ask(to, amount), YES);
  }

  /** A bitcoin wallet with one coin worth five and a request for three. */
  lemma ReadyForOne(rule: Rule, tr0: Trace, to: string, op: string) returns (tr: Trace, w: World)
    requires Reached(rule, tr0, START)
    ensures Reached(rule, tr, w) && w.calls == map[] && w.t.wallets == map["v" := Wallet(Bitcoin, InService)]
    ensures w.t.utxos == map[op := Utxo("v", "5", Free, "")]
    ensures w.t.withdrawals == map["b" := DecidedRow(Ask(to, "3"), NO), "a" := DecidedRow(Ask(to, "3"), YES)]
  {
    tr, w := WithWallet(rule, tr0, Bitcoin);
    tr, w := Tracking(rule, tr, w, op, "5");
    tr, w := TwoRequests(rule, tr, w, to, "3");
  }

  lemma ListedOne(c: Codecs, to: string, op: string) returns (tr: Trace, w: World)
    ensures Reached(RuleOf(c), tr, w) && w.calls == map["a" := Choosing(Some([op]))]
    ensures w.t.utxos == map[op := Utxo("v", "5", Free, "")] && IsAsked(w, ("v", Bitcoin), to, "3") && OnlyTwo(w)
  {
    tr := Begin(c);
    tr, w := ReadyForOne(RuleOf(c), tr, to, op);
    ChooseOne(w.t.utxos, op);
    ParseDigit('3');
    assert Wanted(w.t, Row(w, "a"), [op]) == Some([op]);
    tr, w := ListingCoins(RuleOf(c), tr, w, "a", [op]);
  }

  /** The withdrawal "a" is on this account and asks for this. */
  predicate IsAsked(w: World, k: NonceKey, to: string, amount: string) {
    HasAccount(w.t, "a") && AccountOf(w.t, "a") == k && Row(w, "a").to == to && Row(w, "a").amount == amount
  }

  /** "b" is the only other one and has no coins. */
  predicate OnlyTwo(w: World) { w.t.withdrawals.Keys == {"a", "b"} && Row(w, "b").outpoints == [] }

  lemma HoldingOne(c: Codecs, to: string, op: string) returns (tr: Trace, w: World)
    ensures Reached(RuleOf(c), tr, w) && w.t.utxos.Keys == {op} && w.t.utxos[op].lock == Locked
    ensures w.calls == map["a" := Holding(Hold(-1, [op]))] && OnlyTwo(w)
    ensures IsAsked(w, ("v", Bitcoin), to, "3") && Row(w, "a").outpoints == [op]
  {
    tr, w := ListedOne(c, to, op);
    RelockAllAt(w.t.utxos, [op], Locked, None);
    tr, w := TakingCoins(RuleOf(c), tr, w, "a", [op]);
  }

  /** A call holds a coin while another withdrawal's reorganisation names it, or
      pruning does. */
  lemma HeldCoinIsReachable(c: Codecs, to: string, op: string) returns (steps: seq<Step>)
    ensures var w := Run(START, steps);
      && RealRun(c, START, steps) && "b" !in w.calls && "b" in w.t.withdrawals && Has(w, "a", op)
      && !Steady(w, ReorgStep("b", [op])) && !Steady(w, PruneStep([op])) && !Frugal(w, PruneStep([op]))
  {
    var tr, w;
    tr, w := HoldingOne(c, to, op);
    assert Has(w, "a", op) && Promises(w, "a", op);
    assert KnownPart(w.t.utxos.Keys, [op]) == [op] + KnownPart(w.t.utxos.Keys, []);
    assert op in Takes(w, ReorgStep("b", [op])) && op in Takes(w, PruneStep([op]));
    steps := Steps(c, tr, w);
  }

  // ----- signed withdrawals -----

  /** A running call whose transaction is assembled becomes signed. */
  lemma Signing(rule: Rule, tr: Trace, w: World, id: Id, o: Outcome)
    returns (tr': Trace, w': World)
    requires Reached(rule, tr, w) && CanFinish(w, id) && o.Assembled? && rule(w, FinishStep(id, o))
    ensures Reached(rule, tr', w') && w'.calls == w.calls - {id}
    ensures w'.t == w.t.(withdrawals := w.t.withdrawals[id := Row(w, id).(signedTx := o.bytes, stage := Signed)])
  {
    tr', w' := Then(rule, tr, w, FinishStep(id, o));
  }

  /** The gateway accepts. */
  lemma Sending(rule: Rule, tr: Trace, w: World, id: Id)
    returns (tr': Trace, w': World)
    requires Reached(rule, tr, w) && id !in w.calls && Sendable(w.t, id)
    ensures Reached(rule, tr', w') && w'.calls == w.calls
    ensures w'.t == AfterDelivery(w.t, id, AccountOf(w.t, id), Row(w, id), Some("h"))
  {
    tr', w' := Then(rule, tr, w, BroadcastStep(id, Some("h")));
  }

  // ----- stranded coins -----

  /** With a recipient, an outpoint and an answer the bitcoin builder accepts, failing
      the signed withdrawal leaves its coin locked with nobody holding it. */
  lemma StrandingIsReachable(c: Codecs, to: string, op: string, sig: seq<Byte>, reason: string) returns (steps: seq<Step>)
    requires |sig| >= 64 && c.btcBuilds(to, 3, [op]) && c.btcBytes(to, 3, [op], sig).Some?
    ensures RealRun(c, START, steps) && Stranded(Run(START, steps), op)
  {
    var tr, w;
    tr, w := HoldingOne(c, to, op);
    ParseDigit('3');
    var o := Assembled(c.btcBytes(to, 3, [op], sig).value, Withdrawals.Signing(None, sig));
    assert OutcomeFor(c, w, "a", Some(sig)) == o;
    tr, w := Signing(RuleOf(c), tr, w, "a", o);
    tr, w := Failing(RuleOf(c), tr, w, "a", reason);
    NobodyHas(w, op);
    steps := Steps(c, tr, w);
  }

  lemma NobodyHas(w: World, op: string)
    requires w.calls.Keys == {} && OnlyTwo(w) && Row(w, "a").stage == Failed
    ensures forall j :: !Has(w, j, op)
  {
  }

  lemma Failing(rule: Rule, tr: Trace, w: World, id: Id, reason: string)
    returns (tr': Trace, w': World)
    requires Reached(rule, tr, w) && HasAccount(w.t, id)
    ensures Reached(rule, tr', w') && w' == w.(t := FailedTx(w.t, id, reason))
  {
    tr', w' := Then(rule, tr, w, FailStep(id, reason));
  }

  lemma SentIsBroadcast(t: Tables, id: Id, k: NonceKey, row: Withdrawal, hash: string)
    requires id in t.withdrawals
    ensures var t' := AfterDelivery(t, id, k, row, Some(hash));
      && id in t'.withdrawals && t'.withdrawals[id].stage == Broadcast && t'.wallets == t.wallets
      && t'.withdrawals[id].wallet == t.withdrawals[id].wallet && t'.withdrawals[id].nonce == t.withdrawals[id].nonce
  {
  }

  // ----- a recalled nonce -----

  /** With a request, a first nonce and an answer that assemble, a withdrawal can be
      broadcast while its nonce is the latest; failing it then recalls the nonce. */
  lemma RecallIsReachable(c: Codecs, to: string, sig: seq<Byte>) returns (steps: seq<Step>)
    requires OutcomeOf(c, Ethereum, to, "1", Hold(0, []), Some(sig)).Assembled?
    ensures RealRun(c, START, steps) && Recalls(Run(START, steps), "a")
  {
    var tr, w;
    tr, w := EvmSent(c, to, sig);
    steps := Steps(c, tr, w);
  }

  /** The same withdrawal is confirmed, and a reorganisation demotes it. */
  lemma DemotionIsReachable(c: Codecs, to: string, sig: seq<Byte>) returns (steps: seq<Step>)
    requires OutcomeOf(c, Ethereum, to, "1", Hold(0, []), Some(sig)).Assembled?
    ensures RealRun(c, START, steps) && Demotes(Run(START, steps), "a", [])
  {
    var tr, w;
    tr, w := EvmSent(c, to, sig);
    tr, w := Confirming(RuleOf(c), tr, w, "a");
    steps := Steps(c, tr, w);
  }

  lemma Confirming(rule: Rule, tr: Trace, w: World, id: Id)
    returns (tr': Trace, w': World)
    requires Reached(rule, tr, w) && id in w.t.withdrawals && Row(w, id).stage == Broadcast
    ensures Reached(rule, tr', w') && id in w'.t.withdrawals && Row(w', id).stage == Confirmed
  {
    tr', w' := Then(rule, tr, w, ConfirmStep(id, "h"));
  }

  /** Failed while its call holds the nonce, the withdrawal still becomes signed,
      with a nonce that is on offer again and without its deduplication key. */
  lemma RevivalIsReachable(c: Codecs, to: string, sig: seq<Byte>, reason: string) returns (steps: seq<Step>, last: Step)
    requires OutcomeOf(c, Ethereum, to, "1", Hold(0, []), Some(sig)).Assembled?
    ensures var v := Run(START, steps); var w := Next(v, last);
      && RealRun(c, START, steps) && Real(c, v, last)
      && "a" in v.t.withdrawals && Row(v, "a").stage == Failed && Revives(v, last, "a")
      && "a" in w.t.withdrawals && Row(w, "a").stage == Signed && Row(w, "a").nonce == Some(0)
      && PendingOf(w, ("v", Ethereum)) == 0 && DedupKey(Row(w, "a")) !in w.t.inflight
  {
    var tr, w;
    tr, w := EvmFailed(c, to, reason);
    var o := OutcomeOf(c, Ethereum, to, "1", Hold(0, []), Some(sig));
    assert OutcomeFor(c, w, "a", Some(sig)) == o;
    steps := Steps(c, tr, w);
    last := FinishStep("a", o);
    FinishRevives(w, o);
  }

  lemma FinishRevives(w: World, o: Outcome)
    requires CanFinish(w, "a") && o.Assembled? && w.t.inflight == {} && Row(w, "a").nonce == Some(0)
    ensures var w' := Next(w, FinishStep("a", o));
      && "a" in w'.t.withdrawals && Row(w', "a").stage == Signed && Row(w', "a").nonce == Some(0)
      && w'.t.nonces == w.t.nonces && w'.t.inflight == {}
  {
  }

  lemma EvmFailed(c: Codecs, to: string, reason: string) returns (tr: Trace, w: World)
    ensures Reached(RuleOf(c), tr, w) && w.calls == map["a" := Holding(Hold(0, []))] && IsAsked(w, ("v", Ethereum), to, "1")
    ensures Row(w, "a").stage == Failed && Row(w, "a").nonce == Some(0)
    ensures PendingOf(w, ("v", Ethereum)) == 0 && w.t.inflight == {}
  {
    tr := Begin(c);
    tr, w := EvmHeld(RuleOf(c), tr, to);
    tr, w := Failing(RuleOf(c), tr, w, "a", reason);
  }

  lemma EvmSent(c: Codecs, to: string, sig: seq<Byte>) returns (tr: Trace, w: World)
    requires OutcomeOf(c, Ethereum, to, "1", Hold(0, []), Some(sig)).Assembled?
    ensures Reached(RuleOf(c), tr, w) && w.calls == map[] && HasAccount(w.t, "a") && Row(w, "a").stage == Broadcast
    ensures Recalls(w, "a")
  {
    tr := Begin(c);
    tr, w := EvmHeld(RuleOf(c), tr, to);
    var o := OutcomeOf(c, Ethereum, to, "1", Hold(0, []), Some(sig));
    assert OutcomeFor(c, w, "a", Some(sig)) == o;
    tr, w := Signing(RuleOf(c), tr, w, "a", o);
    assert w.calls == map[];
    SentIsBroadcast(w.t, "a", AccountOf(w.t, "a"), Row(w, "a"), "h");
    tr, w := Sending(RuleOf(c), tr, w, "a");
  }

  lemma EvmHeld(rule: Rule, tr0: Trace, to: string) returns (tr: Trace, w: World)
    requires Reached(rule, tr0, START)
    ensures Reached(rule, tr, w) && w.calls == map["a" := Holding(Hold(0, []))]
    ensures IsAsked(w, ("v", Ethereum), to, "1") && Row(w, "a").nonce == Some(0)
    ensures NonceAt(w.t.nonces, ("v", Ethereum)) == NonceRow(1, 0, 1) && w.t.inflight == {DedupKey(Row(w, "a"))}
  {
    tr, w := WithWallet(rule, tr0, Ethereum);
    tr, w := Reserving(rule, tr, w, "a", Ask(to, "1"));
  }

  lemma {:induction false} NatBound(b: seq<Byte>)
    ensures Nat(b) < Pow256(|b|)
  {
    if b != [] {
      NatBound(b[..|b| - 1]);
    }
  }

  lemma ShortBig(n: nat, k: nat)
    requires n < Pow256(k)
    ensures |Big(n)| <= k
  {
    BigLength(n, k);
  }

  /** Lists of short items fit. */
  lemma {:induction false} ShortFits(elems: seq<seq<Byte>>)
    requires |elems| <= 9 && forall i :: 0 <= i < |elems| ==> |elems[i]| <= 32
    ensures Items(elems) && |Payload(elems)| <= 41 * |elems|
  {
    if elems != [] {
      ShortFits(elems[1..]);
      assert |EncodeItem(elems[0])| <= 41;
    }
  }

  lemma ShortAnswer(sig: seq<Byte>)
    requires |sig| == 65
    ensures |Big(Nat(sig[1..33]))| <= 32 && |Big(Nat(sig[33..65]))| <= 32
  {
    NatBound(sig[1..33]);
    NatBound(sig[33..65]);
    ShortBig(Nat(sig[1..33]), 32);
    ShortBig(Nat(sig[33..65]), 32);
  }

  lemma SmallTransferFits(tx: LegacyTx, sg: Signature)
    requires tx == LegacyTx(0, 1, GAS_LIMIT, tx.to, 1, []) && |tx.to| == 20
    requires sg.v == 37 && |Big(sg.r)| <= 32 && |Big(sg.s)| <= 32
    ensures Fits(SigningFields(tx, 1)) && Fits(SignedFields(tx, sg))
  {
    ShortFits(SigningFields(tx, 1));
    ShortFits(SignedFields(tx, sg));
  }

  lemma OneParses()
    ensures ParseDecimal("1") == Some(1)
  {
    ParseDigit('1');
  }

  /** On chain 1 at price 1, a printed address, an amount of one and any 65-byte
      answer with header 27 assemble, so the run above exists. */
  lemma EvmAssembles(c: Codecs, b: seq<Byte>, keccak: string -> EvmAddress.Digest, sig: seq<Byte>) returns (to: string)
    requires c.cfg == EvmConfig(1, 1) && |b| == 20 && |sig| == 65 && sig[0] == 27
    ensures OutcomeOf(c, Ethereum, to, "1", Hold(0, []), Some(sig)).Assembled?
  {
    EvmAddress.ParseOfChecksum(b, keccak);
    to := EvmAddress.Checksum(EvmAddress.Hex(b), keccak);
    OneParses();
    var tx, sg := LegacyTx(0, 1, GAS_LIMIT, b, 1, []), Signature(Nat(sig[1..33]), Nat(sig[33..65]), 37);
    assert BuildTx(c.cfg, to, "1", 0) == Some(tx);
    assert SigFromMpc(sig, 1) == Some(sg);
    ShortAnswer(sig);
    SmallTransferFits(tx, sg);
  }

  // ----- an uncovered payment -----

  /** The lowest 64-bit number as text. */
  lemma LowestText() returns (low: string)
    ensures Val(low) == MIN_INT64
  {
    ParseRendersBack(0x8000_0000_0000_0000);
    low := "-" + Itoa(0x8000_0000_0000_0000);
  }

  lemma ListDebts(us: map<string, Utxo>, p: string, q: string)
    requires p != q &&  us.Keys == {p, q} && us[p].wallet == us[q].wallet == "v" && AllFree(us, [p, q])
    requires Values(us) == map[p := -1, q := MIN_INT64]
    ensures IsListing(us, "v", [p, q]) && Vals(Values(us), [p, q]) == [-1, MIN_INT64]
  {
    var order := [p, q];
    assert order[0] == p && order[1] == q;
    assert Listed(Values(us), order);
    assert Vals(Values(us), order) == [-1, MIN_INT64];
    assert Elems(order) == FreeOf(us, "v");
  }

  /** Debts of one and of the lowest 64-bit number pass for an amount of one. */
  lemma ChooseDebts(us: map<string, Utxo>, p: string, q: string)
    requires IsListing(us, "v", [p, q]) && Vals(Values(us), [p, q]) == [-1, MIN_INT64]
    ensures Choose(us, [p, q], 1) == Some([p, q])
  {
    NegativeValueOverstates();
    assert [p, q][..2] == [p, q];
  }

  lemma ReadyForDebts(rule: Rule, tr0: Trace, to: string, p: string, q: string) returns (tr: Trace, w: World)
    requires p != q &&  Reached(rule, tr0, START)
    ensures Reached(rule, tr, w) && w.calls == map[] && w.t.wallets == map["v" := Wallet(Bitcoin, InService)]
    ensures AreDebts(w.t.utxos, p, q)
    ensures w.t.withdrawals == map["b" := DecidedRow(Ask(to, "1"), NO), "a" := DecidedRow(Ask(to, "1"), YES)]
  {
    tr, w := WithWallet(rule, tr0, Bitcoin);
    tr, w := Tracking(rule, tr, w, p, "-1");
    var low := LowestText();
    tr, w := Tracking(rule, tr, w, q, low);
    TwoAreDebts(w.t.utxos, p, q, low);
    tr, w := TwoRequests(rule, tr, w, to, "1");
  }

  /** The coins of that wallet, seen through what selection asks of them. */
  predicate AreDebts(us: map<string, Utxo>, p: string, q: string) {
    && us.Keys == {p, q} && Values(us) == map[p := -1, q := MIN_INT64] && AllFree(us, [p, q])
    && IsListing(us, "v", [p, q]) && Choose(us, [p, q], 1) == Some([p, q])
  }

  lemma TwoAreDebts(us: map<string, Utxo>, p: string, q: string, low: string)
    requires p != q &&  us == map[p := Utxo("v", "-1", Free, ""), q := Utxo("v", low, Free, "")] && Val(low) == MIN_INT64
    ensures AreDebts(us, p, q)
  {
    ListDebts(us, p, q);
    ChooseDebts(us, p, q);
  }

  lemma ListedDebts(c: Codecs, to: string, p: string, q: string) returns (tr: Trace, w: World)
    requires p != q
    ensures Reached(RuleOf(c), tr, w) && w.calls == map["a" := Choosing(Some([p, q]))] && AreDebts(w.t.utxos, p, q)
    ensures IsAsked(w, ("v", Bitcoin), to, "1")
  {
    tr := Begin(c);
    tr, w := ReadyForDebts(RuleOf(c), tr, to, p, q);
    ParseDigit('1');
    assert Wanted(w.t, Row(w, "a"), [p, q]) == Some([p, q]);
    tr, w := ListingCoins(RuleOf(c), tr, w, "a", [p, q]);
  }

  lemma RelockedValues(us: map<string, Utxo>, ops: seq<string>)
    ensures Values(RelockAll(us, ops, Locked, None)) == Values(us)
    ensures RelockAll(us, ops, Locked, None).Keys == us.Keys
  {
    RelockAllKeeps(us, ops, Locked, None);
  }

  lemma HeldDebts(c: Codecs, to: string, p: string, q: string) returns (tr: Trace, w: World)
    requires p != q
    ensures Reached(RuleOf(c), tr, w) && w.calls == map["a" := Holding(Hold(-1, [p, q]))]
    ensures w.t.utxos.Keys == {p, q} && Values(w.t.utxos) == map[p := -1, q := MIN_INT64]
    ensures IsAsked(w, ("v", Bitcoin), to, "1")
    ensures Row(w, "a").outpoints == [p, q]
  {
    tr, w := ListedDebts(c, to, p, q);
    tr, w := TakingDebts(RuleOf(c), tr, w, to, [p, q]);
  }

  lemma TakingDebts(rule: Rule, tr: Trace, w: World, to: string, ops: seq<string>)
    returns (tr': Trace, w': World)
    requires Reached(rule, tr, w) && w.calls == map["a" := Choosing(Some(ops))] && AllFree(w.t.utxos, ops)
    requires IsAsked(w, ("v", Bitcoin), to, "1")
    ensures Reached(rule, tr', w') && w'.calls == map["a" := Holding(Hold(-1, ops))]
    ensures w'.t.utxos.Keys == w.t.utxos.Keys && Values(w'.t.utxos) == Values(w.t.utxos)
    ensures IsAsked(w', ("v", Bitcoin), to, "1") && Row(w', "a").outpoints == ops
  {
    RelockedValues(w.t.utxos, ops);
    tr', w' := TakingCoins(rule, tr, w, "a", ops);
  }

  /** With a recipient, two outpoints and an answer the bitcoin builder accepts, a
      withdrawal can be signed over coins that do not cover it, without any pruning. */
  lemma UncoveredIsReachable(c: Codecs, to: string, p: string, q: string, sig: seq<Byte>) returns (steps: seq<Step>)
    requires p != q &&  |sig| >= 128 && c.btcBuilds(to, 1, [p, q]) && c.btcBytes(to, 1, [p, q], sig).Some?
    ensures var w := Run(START, steps);
      && RealRun(c, START, steps) && FrugalRun(START, steps)
      && IsPaidInBitcoin(w, "a") && Elems(Row(w, "a").outpoints) <= w.t.utxos.Keys
      && SumSet(Values(w.t.utxos), Elems(Row(w, "a").outpoints)) < Asked(Row(w, "a"))
  {
    var tr, w;
    tr, w := HeldDebts(c, to, p, q);
    ParseDigit('1');
    var o := Assembled(c.btcBytes(to, 1, [p, q], sig).value, Withdrawals.Signing(None, sig));
    assert OutcomeFor(c, w, "a", Some(sig)) == o;
    tr, w := Signing(RuleOf(c), tr, w, "a", o);
    DebtsFallShort(w.t.utxos, p, q);
    steps := Steps(c, tr, w);
  }

  lemma DebtsFallShort(us: map<string, Utxo>, p: string, q: string)
    requires p != q &&  us.Keys == {p, q} && Values(us) == map[p := -1, q := MIN_INT64]
    ensures SumSet(Values(us), Elems([p, q])) < MIN_INT64
  {
    var m := Values(us);
    var s := Elems([p, q]);
    assert [p, q][0] == p && [p, q][1] == q;
    assert p in s && q in s;
    SumSetPick(m, s, p);
    SumSetPick(m, s - {p}, q);
    assert s - {p} - {q} == {};
  }
}
