/** The in-flight set holds exactly the keys of the unfinished withdrawals. */
module SagaDedup {
  import opened Text
  import opened Records
  import opened Withdrawals
  import opened Saga

  /** `id` is unfinished and `key` is its deduplication key. */
  predicate IsLive(ws: map<Id, Withdrawal>, id: Id, key: string) {
    id in ws && InFlight(ws[id]) && DedupKey(ws[id]) == key
  }

  /** The set has no stray key, misses none, and no key is shared. */
  ghost predicate Tracks(ws: map<Id, Withdrawal>, keys: set<string>) {
    && (forall id, key :: IsLive(ws, id, key) ==> key in keys)
    && (forall key :: key in keys ==> exists id :: IsLive(ws, id, key))
    && (forall i, j, key :: IsLive(ws, i, key) && IsLive(ws, j, key) ==> i == j)
  }

  lemma SameLive(ws: map<Id, Withdrawal>, ws': map<Id, Withdrawal>, keys: set<string>)
    requires forall id, key :: IsLive(ws, id, key) <==> IsLive(ws', id, key)
    ensures Tracks(ws, keys) <==> Tracks(ws', keys)
  {
    if Tracks(ws, keys) {
      forall key | key in keys ensures exists id :: IsLive(ws', id, key) {
        var id :| IsLive(ws, id, key);
        assert IsLive(ws', id, key);
      }
    }
    if Tracks(ws', keys) {
      forall key | key in keys ensures exists id :: IsLive(ws, id, key) {
        var id :| IsLive(ws', id, key);
        assert IsLive(ws, id, key);
      }
    }
  }

  lemma OpenTracks(ws: map<Id, Withdrawal>, keys: set<string>, id: Id, row: Withdrawal)
    requires Tracks(ws, keys) && id !in ws && InFlight(row) && DedupKey(row) !in keys
    ensures Tracks(ws[id := row], keys + {DedupKey(row)})
  {
    var ws' := ws[id := row];
    assert forall j, key :: j != id ==> (IsLive(ws, j, key) <==> IsLive(ws', j, key));
    assert IsLive(ws', id, DedupKey(row));
    forall key | key in keys ensures exists j :: IsLive(ws', j, key) {
      var j :| IsLive(ws, j, key);
      assert IsLive(ws', j, key);
    }
  }

  /** Finishing a live withdrawal takes its key out and no other. */
  lemma CloseTracks(ws: map<Id, Withdrawal>, keys: set<string>, id: Id, row: Withdrawal)
    requires Tracks(ws, keys) && id in ws && InFlight(ws[id]) && !InFlight(row)
    ensures Tracks(ws[id := row], keys - {DedupKey(ws[id])})
  {
    var ws' := ws[id := row];
    assert IsLive(ws, id, DedupKey(ws[id]));
    assert forall j, key :: j != id ==> (IsLive(ws, j, key) <==> IsLive(ws', j, key));
    forall key | key in keys && key != DedupKey(ws[id]) ensures exists j :: IsLive(ws', j, key) {
      var j :| IsLive(ws, j, key);
      assert IsLive(ws', j, key);
    }
  }

  lemma RestageTracks(ws: map<Id, Withdrawal>, keys: set<string>, id: Id, row: Withdrawal)
    requires id in ws && DedupKey(row) == DedupKey(ws[id]) && (InFlight(row) <==> InFlight(ws[id]))
    ensures Tracks(ws[id := row], keys) <==> Tracks(ws, keys)
  {
    forall j, key ensures IsLive(ws, j, key) <==> IsLive(ws[id := row], j, key) {}
    SameLive(ws, ws[id := row], keys);
  }

  predicate IsLast(stage: Stage) { stage == Confirmed || stage == Failed }

  /** Writing this stage suits the set: the withdrawal is unfinished, or it is
      finished once more and nobody else has its key. */
  predicate Suits(t: Tables, id: Id, stage: Stage) {
    id in t.withdrawals ==> InFlight(t.withdrawals[id]) || (IsLast(stage) && DedupKey(t.withdrawals[id]) !in t.inflight)
  }

  /** Bringing a finished withdrawal back always leaves the set wrong: its key is
      missing, or somebody else has it. */
  lemma ReviveBreaks(ws: map<Id, Withdrawal>, keys: set<string>, id: Id, row: Withdrawal)
    requires Tracks(ws, keys) && id in ws && !InFlight(ws[id]) && InFlight(row)
    ensures !Tracks(ws[id := row], keys)
  {
    var ws', key := ws[id := row], DedupKey(row);
    assert IsLive(ws', id, key);
    if key in keys {
      var j :| IsLive(ws, j, key);
      assert IsLive(ws', j, key) && j != id;
    }
  }

  /** Finishing a finished withdrawal again is right exactly when nobody has its key. */
  lemma RefinishTracksIff(ws: map<Id, Withdrawal>, keys: set<string>, id: Id, row: Withdrawal)
    requires Tracks(ws, keys) && id in ws && !InFlight(ws[id]) && !InFlight(row) && DedupKey(row) == DedupKey(ws[id])
    ensures Tracks(ws[id := row], keys - {DedupKey(row)}) <==> DedupKey(row) !in keys
  {
    var key := DedupKey(row);
    RestageTracks(ws, keys - {key}, id, row);
    if key in keys {
      var j :| IsLive(ws, j, key);
      assert !Tracks(ws, keys - {key});
    } else {
      assert keys - {key} == keys;
    }
  }

  /** A stage change keeps the set right exactly when it suits. */
  lemma StageTracksIff(t: Tables, id: Id, stage: Stage, reason: string, txHash: string, decision: string)
    requires Tracks(t.withdrawals, t.inflight)
    ensures var t' := UpdateStage(t, id, stage, reason, txHash, decision);
      Tracks(t'.withdrawals, t'.inflight) <==> Suits(t, id, stage)
  {
    if id in t.withdrawals {
      var row := WithStage(t.withdrawals[id], stage, reason, txHash, decision);
      if InFlight(t.withdrawals[id]) {
        if IsLast(stage) {
          CloseTracks(t.withdrawals, t.inflight, id, row);
        } else {
          RestageTracks(t.withdrawals, t.inflight, id, row);
        }
      } else if IsLast(stage) {
        RefinishTracksIff(t.withdrawals, t.inflight, id, row);
      } else {
        ReviveBreaks(t.withdrawals, t.inflight, id, row);
      }
    }
  }

  ghost predicate InStep(w: World) { Tracks(w.t.withdrawals, w.t.inflight) }

  ghost predicate Tidy(w: World) { Shape(w) && InStep(w) }

  // ----- steps -----

  lemma OpenIsTidy(t: Tables, id: Id, r: Request)
    requires Tracks(t.withdrawals, t.inflight)
    ensures var t' := Opened(t, id, r); Tracks(t'.withdrawals, t'.inflight)
  {
    if Opens(t, id, r) {
      OpenTracks(t.withdrawals, t.inflight, id, NewRow(r));
    }
  }

  lemma DecideIsTidyIff(t: Tables, id: Id, v: Verdict)
    requires Tracks(t.withdrawals, t.inflight)
    ensures var t' := Decided(t, id, v);
      Tracks(t'.withdrawals, t'.inflight) <==> Suits(t, id, if Approves(v) then Whitelisted else Failed)
  {
    if Approves(v) {
      StageTracksIff(t, id, Whitelisted, "", "", DecisionOf(v));
    } else {
      StageTracksIff(t, id, Failed, ReasonOf(v), "", DecisionOf(v));
    }
  }

  lemma ReserveIsTidy(t: Tables, id: Id, k: NonceKey, granted: bool, wanted: Option<seq<string>>)
    requires Tracks(t.withdrawals, t.inflight) && id in t.withdrawals
    ensures var t' := Reserve(t, id, k, granted, wanted).0; Tracks(t'.withdrawals, t'.inflight)
  {
    var row := t.withdrawals[id];
    if IsEvm(k.1) {
      RestageTracks(t.withdrawals, t.inflight, id, row.(nonce := Some(NonceAt(t.nonces, k).pending)));
    } else if k.1 == Bitcoin && CanTake(t.utxos, wanted) {
      RestageTracks(t.withdrawals, t.inflight, id, row.(outpoints := wanted.value));
    }
  }

  lemma FailedWithIsTidyIff(t: Tables, id: Id, k: NonceKey, h: Hold, reason: string)
    requires Tracks(t.withdrawals, t.inflight)
    ensures var t' := FailedWith(t, id, k, h, reason); Tracks(t'.withdrawals, t'.inflight) <==> Suits(t, id, Failed)
  {
    StageTracksIff(RolledBack(t, k, h), id, Failed, reason, "", "");
  }

  lemma FinishIsTidyIff(t: Tables, id: Id, k: NonceKey, h: Hold, o: Outcome)
    requires Tracks(t.withdrawals, t.inflight) && id in t.withdrawals
    ensures var t' := Finish(t, id, k, h, o);
      Tracks(t'.withdrawals, t'.inflight) <==> o.NotBuilt? || Suits(t, id, if o.Assembled? then Signed else Failed)
  {
    match o
    case NotBuilt =>
    case NotSigned => FailedWithIsTidyIff(t, id, k, h, "sign_failed");
    case NotAssembled => FailedWithIsTidyIff(t, id, k, h, "assemble_failed");
    case Assembled(bytes, _) =>
      RestageTracks(t.withdrawals, t.inflight, id, t.withdrawals[id].(signedTx := bytes));
      StageTracksIff(UpdateSignedTx(t, id, bytes), id, Signed, "", "", "");
  }

  lemma DeliveryIsTidy(t: Tables, id: Id, k: NonceKey, row: Withdrawal, txHash: Option<string>)
    requires Tracks(t.withdrawals, t.inflight) && id in t.withdrawals && InFlight(t.withdrawals[id])
    ensures var t' := AfterDelivery(t, id, k, row, txHash); Tracks(t'.withdrawals, t'.inflight)
  {
    if txHash.None? {
      FailedWithIsTidyIff(t, id, k, HoldOn(row), "broadcast_failed");
    } else {
      StageTracksIff(Settled(t, k, row, txHash.value), id, Broadcast, "", txHash.value, "");
    }
  }

  lemma ConfirmIsTidy(t: Tables, id: Id, hash: string)
    requires Tracks(t.withdrawals, t.inflight)
    ensures var t' := ConfirmedTx(t, id, hash); Tracks(t'.withdrawals, t'.inflight)
  {
    if id in t.withdrawals && t.withdrawals[id].stage == Broadcast {
      StageTracksIff(t, id, Confirmed, "", hash, "");
    }
  }

  /** `Fail` keeps the set right exactly when the withdrawal is unfinished or no
      unfinished one shares its key. */
  lemma FailIsTidyIff(w: World, id: Id, reason: string)
    requires Tracks(w.t.withdrawals, w.t.inflight) && HasAccount(w.t, id)
    ensures var w' := DoFail(w, id, reason);
      Tracks(w'.t.withdrawals, w'.t.inflight)
      <==> InFlight(Row(w, id)) || DedupKey(Row(w, id)) !in w.t.inflight
  {
    FailedWithIsTidyIff(w.t, id, AccountOf(w.t, id), HoldOn(Row(w, id)).(ops := []), reason);
  }

  /** A reorganisation demotes a confirmed withdrawal. */
  predicate Demotes(w: World, id: Id, ops: seq<string>) {
    id in w.t.withdrawals && AllKnown(w.t.utxos, ops) && Row(w, id).stage == Confirmed
  }

  /** A demotion brings a withdrawal back without its key, so it always leaves
      the set wrong; any other reorganisation keeps it right. */
  lemma ReorgIsTidyIff(w: World, id: Id, ops: seq<string>)
    requires Tracks(w.t.withdrawals, w.t.inflight)
    ensures var w' := DoReorg(w, id, ops);
      Tracks(w'.t.withdrawals, w'.t.inflight) <==> !Demotes(w, id, ops)
  {
    if Demotes(w, id, ops) {
      StageTracksIff(w.t.(utxos := Restore(w.t.utxos, ops)), id, Broadcast, "reorg", "", "");
    }
  }

  /** Every stage the step writes suits, and it demotes nothing. */
  predicate Orderly(w: World, s: Step) {
    match s
    case DecideStep(id, v) =>
      Running(w, id) && w.calls[id].Deciding? ==> Suits(w.t, id, if Approves(v) then Whitelisted else Failed)
    case FinishStep(id, o) =>
      CanFinish(w, id) ==> o.NotBuilt? || Suits(w.t, id, if o.Assembled? then Signed else Failed)
    case FailStep(id, _) => HasAccount(w.t, id) ==> Suits(w.t, id, Failed)
    case ReorgStep(id, ops) => !Demotes(w, id, ops)
    case _ => true
  }

  lemma CallStepIsTidyIff(w: World, s: Step)
    requires InStep(w) && CallOk(w, IdOf(s)) && (s.DecideStep? || s.ReserveStep? || s.FinishStep?)
    ensures InStep(Next(w, s)) <==> Orderly(w, s)
  {
    match s
    case DecideStep(id, v) => if Running(w, id) && w.calls[id].Deciding? { DecideIsTidyIff(w.t, id, v); }
    case ReserveStep(id, granted) =>
      if Running(w, id) && w.calls[id].Choosing? {
        ReserveIsTidy(w.t, id, AccountOf(w.t, id), granted, w.calls[id].wanted);
      }
    case FinishStep(id, o) =>
      if CanFinish(w, id) { FinishIsTidyIff(w.t, id, AccountOf(w.t, id), w.calls[id].hold, o); }
  }

  lemma RowStepIsTidyIff(w: World, s: Step)
    requires InStep(w) && !s.DecideStep? && !s.ReserveStep? && !s.FinishStep?
    ensures InStep(Next(w, s)) <==> Orderly(w, s)
  {
    match s
    case OpenStep(id, r) => OpenIsTidy(w.t, id, r);
    case BroadcastStep(id, txHash) =>
      if Sendable(w.t, id) { DeliveryIsTidy(w.t, id, AccountOf(w.t, id), Row(w, id), txHash); }
    case ConfirmStep(id, hash) => ConfirmIsTidy(w.t, id, hash);
    case FailStep(id, reason) => if HasAccount(w.t, id) { FailIsTidyIff(w, id, reason); }
    case ReorgStep(id, ops) => ReorgIsTidyIff(w, id, ops);
    case _ =>
  }

  /** Every step keeps the set exact if and only if every stage it writes suits. */
  lemma StepKeepsTidyIff(w: World, s: Step)
    requires Tidy(w)
    ensures Tidy(Next(w, s)) <==> Orderly(w, s)
  {
    StepKeepsShape(w, s);
    assert CallOk(w, IdOf(s));
    if s.DecideStep? || s.ReserveStep? || s.FinishStep? {
      CallStepIsTidyIff(w, s);
    } else {
      RowStepIsTidyIff(w, s);
    }
  }

  predicate OrderlyRun(w: World, steps: seq<Step>)
    decreases |steps|
  {
    steps != [] ==> Orderly(w, steps[0]) && OrderlyRun(Next(w, steps[0]), steps[1..])
  }

  lemma {:induction false} RunKeepsTidy(w: World, steps: seq<Step>)
    requires Tidy(w) && OrderlyRun(w, steps)
    ensures Tidy(Run(w, steps))
    decreases |steps|
  {
    if steps != [] {
      StepKeepsTidyIff(w, steps[0]);
      RunKeepsTidy(Next(w, steps[0]), steps[1..]);
    }
  }

  /** In every such run a key is in the in-flight set exactly when one unfinished
      withdrawal has it, and then exactly one. */
  lemma InflightIsExact(steps: seq<Step>, key: string)
    requires OrderlyRun(START, steps)
    ensures var w := Run(START, steps);
      && (key in w.t.inflight <==> exists id :: IsLive(w.t.withdrawals, id, key))
      && forall i, j :: IsLive(w.t.withdrawals, i, key) && IsLive(w.t.withdrawals, j, key) ==> i == j
  {
    RunKeepsTidy(START, steps);
  }
}
