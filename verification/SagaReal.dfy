/** Runs whose outcomes are those the code comes to: coins are chosen from a
    listing of the free ones, and transactions are built and assembled as the
    codecs do it. */
module SagaReal {
  import opened Text
  import opened Bytes
  import opened Records
  import opened UtxoSelection
  import opened Withdrawals
  import opened Saga

  /** What building, signing and assembling for a running call comes to. */
  function OutcomeFor(c: Codecs, w: World, id: Id, signature: Option<seq<Byte>>): Outcome
    requires CanFinish(w, id)
  {
    OutcomeOf(c, AccountOf(w.t, id).1, Row(w, id).to, Row(w, id).amount, w.calls[id].hold, signature)
  }

  /** On bitcoin the choice comes from some listing; elsewhere there is none. */
  ghost predicate RealChoice(w: World, id: Id, wanted: Option<seq<string>>)
    requires CanList(w, id)
  {
    if AccountOf(w.t, id).1 == Bitcoin
    then exists order :: IsListing(w.t.utxos, Row(w, id).wallet, order) && wanted == Wanted(w.t, Row(w, id), order)
    else wanted == None
  }

  ghost predicate Real(c: Codecs, w: World, s: Step) {
    && (s.ListStep? && CanList(w, s.id) ==> RealChoice(w, s.id, s.wanted))
    && (s.FinishStep? && CanFinish(w, s.id) ==> exists signature :: s.o == OutcomeFor(c, w, s.id, signature))
  }

  ghost predicate RealRun(c: Codecs, w: World, steps: seq<Step>)
    decreases |steps|
  {
    steps != [] ==> Real(c, w, steps[0]) && RealRun(c, Next(w, steps[0]), steps[1..])
  }
}
