/** EVM nonce coordination: reserve, commit and conditional rollback on a shared
    counter, with any number of clients interleaving. */
module Nonces {
  import opened Text
  import opened Records
  import opened MemStore

  // ----- one reservation as it runs -----

  /** What one attempt to take the outer lock answers. */
  datatype LockReply = LockError | Busy | Granted

  const RETRIES: nat := 50

  datatype Reservation = Reserved(nonce: int) | LockFailed | Contended

  /** The reply that ends the retry loop, if any does. */
  function Decisive(replies: seq<LockReply>): (r: Option<LockReply>)
    ensures r.None? <==> forall i :: 0 <= i < |replies| ==> replies[i] == Busy
    ensures r.Some? ==> exists i :: 0 <= i < |replies| && replies[i] == r.value != Busy
                                    && forall j :: 0 <= j < i ==> replies[j] == Busy
  {
    if replies == [] then None
    else if replies[0] != Busy then Some(replies[0])
    else Decisive(replies[1..])
  }

  /** Tries the lock up to fifty times; holding it, takes the next nonce. A call
      that fails leaves the store alone. */
  method ReserveNonce(db: Db, k: NonceKey, replies: seq<LockReply>) returns (r: Reservation)
    requires db.Valid() && |replies| == 50
    modifies db.Repr
    ensures db.Valid() && fresh(db.Repr - old(db.Repr))
    ensures r.Reserved? <==> Decisive(replies) == Some(Granted)
    ensures r.LockFailed? <==> Decisive(replies) == Some(LockError)
    ensures r.Reserved? ==>
      && r.nonce == NonceAt(old(db.view).nonces, k).pending
      && db.view == old(db.view).(nonces := IncrementPending(old(db.view).nonces, k))
    ensures !r.Reserved? ==> db.view == old(db.view)
  {
    for i := 0 to RETRIES
      invariant db.Valid() && db.view == old(db.view) && db.Repr == old(db.Repr)
      invariant Decisive(replies[i..]) == Decisive(replies)
    {
      assert replies[i..][1..] == replies[i + 1..];
      if replies[i] == LockError {
        return LockFailed;
      }
      if replies[i] == Granted {
        var n := db.IncrementPendingNonce(k);
        return Reserved(n);
      }
    }
    return Contended;
  }

  // ----- all clients interleaved -----

  /** Where a client is: waiting for the lock, past it and about to take a nonce,
      or holding a nonce it has not settled. */
  datatype Client = Idle | Trying(key: NonceKey, attempt: nat) | Entered(key: NonceKey) | Holding(key: NonceKey, nonce: int)

  /** `committed` and `abandoned` record what happened to settled nonces. */
  datatype World = World(nonces: map<NonceKey, NonceRow>, clients: map<nat, Client>,
                         committed: set<(NonceKey, int)>, abandoned: set<(NonceKey, int)>)

  const START := World(map[], map[], {}, {})

  datatype Step =
    | Begin(client: nat, key: NonceKey)
    | Reply(client: nat, reply: LockReply)
    | Take(client: nat)
    | Commit(client: nat)
    | Rollback(client: nat)

  function ClientAt(w: World, c: nat): Client { if c in w.clients then w.clients[c] else Idle }

  /** One atomic step. The lock's replies are arbitrary, so nothing below depends
      on it excluding anyone; a step that does not fit the client does nothing. */
  function Next(w: World, s: Step): World {
    var me := ClientAt(w, s.client);
    match s
    case Begin(c, k) => if me.Idle? then w.(clients := w.clients[c := Trying(k, 0)]) else w
    case Reply(c, reply) =>
      if !me.Trying? then w
      else if reply == Granted then w.(clients := w.clients[c := Entered(me.key)])
      else if reply == Busy && me.attempt + 1 < RETRIES then w.(clients := w.clients[c := Trying(me.key, me.attempt + 1)])
      else w.(clients := w.clients[c := Idle])
    case Take(c) =>
      if !me.Entered? then w
      else w.(nonces := IncrementPending(w.nonces, me.key),
              clients := w.clients[c := Holding(me.key, NonceAt(w.nonces, me.key).pending)])
    case Commit(c) =>
      if !me.Holding? then w
      else w.(nonces := AdvanceBroadcast(w.nonces, me.key, me.nonce),
              clients := w.clients[c := Idle], committed := w.committed + {(me.key, me.nonce)})
    case Rollback(c) =>
      if !me.Holding? then w
      else
        var back := me.key in w.nonces && w.nonces[me.key].pending == me.nonce + 1;
        w.(nonces := RollbackPending(w.nonces, me.key, me.nonce), clients := w.clients[c := Idle],
           abandoned := if back then w.abandoned else w.abandoned + {(me.key, me.nonce)})
  }

  function Run(w: World, steps: seq<Step>): World
    decreases |steps|
  {
    if steps == [] then w else Run(Next(w, steps[0]), steps[1..])
  }

  ghost predicate Outstanding(w: World, k: NonceKey, n: int) {
    exists c :: c in w.clients && w.clients[c] == Holding(k, n)
  }

  /** No two clients hold the same nonce. */
  ghost predicate HeldOnce(w: World) {
    forall b, c :: b in w.clients && c in w.clients && b != c && w.clients[b].Holding? ==> w.clients[b] != w.clients[c]
  }

  /** The nonces below the counter are exactly those outstanding, committed or
      abandoned, and no nonce is two of these. */
  ghost predicate Partition(w: World) {
    && (forall c :: c in w.clients && w.clients[c].Holding? ==>
          && 0 <= w.clients[c].nonce < NonceAt(w.nonces, w.clients[c].key).pending
          && (w.clients[c].key, w.clients[c].nonce) !in w.committed
          && (w.clients[c].key, w.clients[c].nonce) !in w.abandoned)
    && (forall e :: e in w.committed ==> e !in w.abandoned && 0 <= e.1 < NonceAt(w.nonces, e.0).pending)
    && (forall e :: e in w.abandoned ==> 0 <= e.1 < NonceAt(w.nonces, e.0).pending)
    && (forall k, n :: 0 <= n < NonceAt(w.nonces, k).pending ==>
          (k, n) in w.committed || (k, n) in w.abandoned || Outstanding(w, k, n))
  }

  /** The broadcast counter is one more than the largest committed nonce. */
  ghost predicate BroadcastIsMax(w: World) {
    && (forall e :: e in w.committed ==> e.1 < NonceAt(w.nonces, e.0).broadcast)
    && (forall k :: k in w.nonces ==>
          w.nonces[k].broadcast == 0 || (k, w.nonces[k].broadcast - 1) in w.committed)
  }

  ghost predicate Safe(w: World) {
    HeldOnce(w) && Partition(w) && BroadcastIsMax(w) && forall k :: k in w.nonces ==> w.nonces[k].pending >= 0
  }

  lemma TakeCovers(w: World, c: nat)
    requires Safe(w) && ClientAt(w, c).Entered?
    ensures var v := Next(w, Take(c));
            forall k, n :: 0 <= n < NonceAt(v.nonces, k).pending ==>
              (k, n) in v.committed || (k, n) in v.abandoned || Outstanding(v, k, n)
  {
    var k := ClientAt(w, c).key;
    var n := NonceAt(w.nonces, k).pending;
    var v := Next(w, Take(c));
    assert v.clients[c] == Holding(k, n);
    forall j, i | 0 <= i < NonceAt(v.nonces, j).pending
      ensures (j, i) in v.committed || (j, i) in v.abandoned || Outstanding(v, j, i)
    {
      if (j, i) != (k, n) && Outstanding(w, j, i) {
        var b :| b in w.clients && w.clients[b] == Holding(j, i);
        assert v.clients[b] == Holding(j, i);
      }
    }
  }

  lemma TakeKeeps(w: World, c: nat)
    requires Safe(w) && ClientAt(w, c).Entered?
    ensures Safe(Next(w, Take(c)))
  {
    TakeCovers(w, c);
  }

  lemma SettleKeepsOthers(w: World, v: World, c: nat, k: NonceKey, n: int)
    requires c in w.clients && w.clients[c] == Holding(k, n) && v.clients == w.clients[c := Idle]
    ensures forall j, i :: Outstanding(w, j, i) && (j, i) != (k, n) ==> Outstanding(v, j, i)
  {
    forall j, i | Outstanding(w, j, i) && (j, i) != (k, n) ensures Outstanding(v, j, i) {
      var b :| b in w.clients && w.clients[b] == Holding(j, i);
      assert v.clients[b] == Holding(j, i);
    }
  }

  lemma CommitKeepsPartition(w: World, c: nat)
    requires Safe(w) && ClientAt(w, c).Holding?
    ensures Partition(Next(w, Commit(c)))
  {
    var me := ClientAt(w, c);
    SettleKeepsOthers(w, Next(w, Commit(c)), c, me.key, me.nonce);
  }

  lemma RollbackOfLatest(w: World, c: nat)
    requires Safe(w) && ClientAt(w, c).Holding?
    requires NonceAt(w.nonces, ClientAt(w, c).key).pending == ClientAt(w, c).nonce + 1
    ensures Partition(Next(w, Rollback(c)))
  {
    var me := ClientAt(w, c);
    SettleKeepsOthers(w, Next(w, Rollback(c)), c, me.key, me.nonce);
  }

  lemma RollbackOfEarlier(w: World, c: nat)
    requires Safe(w) && ClientAt(w, c).Holding?
    requires NonceAt(w.nonces, ClientAt(w, c).key).pending != ClientAt(w, c).nonce + 1
    ensures Partition(Next(w, Rollback(c)))
  {
    var me := ClientAt(w, c);
    SettleKeepsOthers(w, Next(w, Rollback(c)), c, me.key, me.nonce);
  }

  lemma CommitKeeps(w: World, c: nat)
    requires Safe(w) && ClientAt(w, c).Holding?
    ensures Safe(Next(w, Commit(c)))
  {
    CommitKeepsPartition(w, c);
  }

  lemma RollbackKeeps(w: World, c: nat)
    requires Safe(w) && ClientAt(w, c).Holding?
    ensures Safe(Next(w, Rollback(c)))
  {
    if NonceAt(w.nonces, ClientAt(w, c).key).pending == ClientAt(w, c).nonce + 1 {
      RollbackOfLatest(w, c);
    } else {
      RollbackOfEarlier(w, c);
    }
  }

  lemma MoveKeeps(w: World, c: nat, to: Client)
    requires Safe(w) && !ClientAt(w, c).Holding? && !to.Holding?
    ensures Safe(w.(clients := w.clients[c := to]))
  {
    var v := w.(clients := w.clients[c := to]);
    forall k, n | Outstanding(w, k, n) ensures Outstanding(v, k, n) {
      var b :| b in w.clients && w.clients[b] == Holding(k, n);
      assert v.clients[b] == Holding(k, n);
    }
  }

  lemma StepKeeps(w: World, s: Step)
    requires Safe(w)
    ensures Safe(Next(w, s))
  {
    var me := ClientAt(w, s.client);
    if Next(w, s) != w {
      match s
      case Begin(c, k) => MoveKeeps(w, c, Trying(k, 0));
      case Reply(c, reply) => MoveKeeps(w, c, Next(w, s).clients[c]);
      case Take(c) => TakeKeeps(w, c);
      case Commit(c) => CommitKeeps(w, c);
      case Rollback(c) => RollbackKeeps(w, c);
    }
  }

  /** A client that finds the lock taken fifty times gives up; an error ends it at
      once, and a grant lets it take. */
  lemma {:induction false} GivesUpAfterFifty(w: World, c: nat) returns (steps: seq<Step>)
    requires ClientAt(w, c).Trying? && ClientAt(w, c).attempt < 50
    ensures |steps| == 50 - ClientAt(w, c).attempt && forall i :: 0 <= i < |steps| ==> steps[i] == Reply(c, Busy)
    ensures ClientAt(Run(w, steps), c).Idle? && Run(w, steps).nonces == w.nonces
    ensures ClientAt(Next(w, Reply(c, LockError)), c).Idle?
    ensures ClientAt(Next(w, Reply(c, Granted)), c) == Entered(ClientAt(w, c).key)
    decreases 50 - ClientAt(w, c).attempt
  {
    var w1 := Next(w, Reply(c, Busy));
    var rest := [];
    if ClientAt(w, c).attempt < 49 {
      assert ClientAt(w1, c) == Trying(ClientAt(w, c).key, ClientAt(w, c).attempt + 1);
      rest := GivesUpAfterFifty(w1, c);
    }
    steps := [Reply(c, Busy)] + rest;
    assert steps[1..] == rest;
  }

  /** Every interleaving keeps the partition and the broadcast counter. */
  lemma {:induction false} RunIsSafe(w: World, steps: seq<Step>)
    requires Safe(w)
    ensures Safe(Run(w, steps))
    decreases |steps|
  {
    if steps != [] {
      StepKeeps(w, steps[0]);
      RunIsSafe(Next(w, steps[0]), steps[1..]);
    }
  }

  /** From an empty store, whatever the interleaving: a nonce is below the
      counter exactly when it is outstanding, committed or abandoned, it is only
      one of these, and one client holds it. */
  lemma ProtocolPartitions(steps: seq<Step>, k: NonceKey, n: int)
    ensures var w := Run(START, steps);
            && HeldOnce(w)
            && (0 <= n < NonceAt(w.nonces, k).pending <==>
                (k, n) in w.committed || (k, n) in w.abandoned || Outstanding(w, k, n))
            && !((k, n) in w.committed && (k, n) in w.abandoned)
            && (Outstanding(w, k, n) ==> (k, n) !in w.committed && (k, n) !in w.abandoned)
  {
    RunIsSafe(START, steps);
    var w := Run(START, steps);
    if Outstanding(w, k, n) {
      var c :| c in w.clients && w.clients[c] == Holding(k, n);
    }
  }

  /** And the broadcast counter is one more than the largest committed nonce, or
      zero when none is committed, and never above the pending counter. */
  lemma ProtocolBroadcast(steps: seq<Step>, k: NonceKey)
    ensures var w := Run(START, steps);
            var row := NonceAt(w.nonces, k);
            && (forall n :: (k, n) in w.committed ==> n + 1 <= row.broadcast)
            && (row.broadcast != 0 ==> (k, row.broadcast - 1) in w.committed)
            && row.broadcast <= row.pending
  {
    RunIsSafe(START, steps);
    var w := Run(START, steps);
    if k in w.nonces && w.nonces[k].broadcast != 0 {
      assert (k, w.nonces[k].broadcast - 1) in w.committed;
    }
  }

  // ----- gaps -----

  /** Reserving again: a client that is idle gets the lock and takes a nonce. */
  function Again(c: nat, k: NonceKey): seq<Step> { [Begin(c, k), Reply(c, Granted), Take(c)] }

  lemma AgainTakesPending(w: World, c: nat, k: NonceKey)
    requires ClientAt(w, c).Idle?
    ensures var v := Run(w, Again(c, k));
      ClientAt(v, c) == Holding(k, NonceAt(w.nonces, k).pending) && v.committed == w.committed
  {
    var w1 := Next(w, Begin(c, k));
    var w2 := Next(w1, Reply(c, Granted));
    var s := Again(c, k);
    assert s[1..][0] == Reply(c, Granted) && s[1..][1..] == [Take(c)] && [Take(c)][1..] == [];
    calc {
      Run(w, s);
      Run(w1, s[1..]);
      Run(w2, [Take(c)]);
      Run(Next(w2, Take(c)), []);
      Next(w2, Take(c));
    }
  }

  lemma {:induction false} AbandonedStays(w: World, steps: seq<Step>)
    ensures w.abandoned <= Run(w, steps).abandoned
    decreases |steps|
  {
    if steps != [] {
      AbandonedStays(Next(w, steps[0]), steps[1..]);
    }
  }

  /** A nonce rolled back while it was not the latest is gone: in every
      continuation of the run nobody holds it, commits it or is handed it again. */
  lemma GapIsPermanent(w: World, c: nat, steps: seq<Step>)
    requires Safe(w) && ClientAt(w, c).Holding?
    requires NonceAt(w.nonces, ClientAt(w, c).key).pending != ClientAt(w, c).nonce + 1
    ensures var me := ClientAt(w, c); var v := Run(Next(w, Rollback(c)), steps);
      && !Outstanding(v, me.key, me.nonce) && (me.key, me.nonce) !in v.committed
      && me.nonce < NonceAt(v.nonces, me.key).pending
  {
    var me := ClientAt(w, c);
    var u := Next(w, Rollback(c));
    StepKeeps(w, Rollback(c));
    RunIsSafe(u, steps);
    AbandonedStays(u, steps);
    assert (me.key, me.nonce) in Run(u, steps).abandoned;
  }

  /** A rolled back nonce can come back in some continuation if and only if it
      was the latest one reserved. */
  lemma ComesBackIffLatest(w: World, c: nat)
    requires Safe(w) && ClientAt(w, c).Holding?
    ensures var me := ClientAt(w, c);
      (exists steps :: Outstanding(Run(Next(w, Rollback(c)), steps), me.key, me.nonce))
      <==> NonceAt(w.nonces, me.key).pending == me.nonce + 1
  {
    var me := ClientAt(w, c);
    var u := Next(w, Rollback(c));
    if NonceAt(w.nonces, me.key).pending == me.nonce + 1 {
      AgainTakesPending(u, c, me.key);
      var v := Run(u, Again(c, me.key));
      assert v.clients[c] == Holding(me.key, me.nonce);
      assert Outstanding(v, me.key, me.nonce);
    } else {
      forall steps ensures !Outstanding(Run(u, steps), me.key, me.nonce) {
        GapIsPermanent(w, c, steps);
      }
    }
  }

  /** Settling one reservation twice: committed, then rolled back by a client that
      still remembers it, a nonce is handed out again if and only if it was still
      the latest. */
  lemma DoubleSettleReissuesIff(w: World, c: nat)
    requires Safe(w) && ClientAt(w, c).Holding?
    ensures var me := ClientAt(w, c);
      var done := Next(w, Commit(c));
      var again := Run(Next(done.(clients := done.clients[c := me]), Rollback(c)), Again(c, me.key));
      && (me.key, me.nonce) in again.committed
      && (ClientAt(again, c) == me <==> NonceAt(w.nonces, me.key).pending == me.nonce + 1)
  {
    var me := ClientAt(w, c);
    var done := Next(w, Commit(c));
    AgainTakesPending(Next(done.(clients := done.clients[c := me]), Rollback(c)), c, me.key);
  }
}
