/** The audit outbox: events numbered per wallet, delivered in batches of at most
    a hundred in number order, and marked one by one. */
module Audit {
  import opened Text
  import opened Records
  import opened Greedy
  import opened MemStore

  const BATCH: nat := 100

  /** `log` lists the outbox positions the sink received, oldest first. */
  datatype State = State(rows: seq<AuditRow>, counters: map<Id, int>, log: seq<int>)

  const START := State([], map[], [])

  // ----- listing -----

  /** The undelivered positions, each with its number negated so that a
      descending listing is in number order. */
  function Backlog(rows: seq<AuditRow>): (m: map<int, int>) {
    map i | 0 <= i < |rows| && !rows[i].delivered :: -rows[i].seqNo
  }

  /** Every undelivered row once, lowest number first; ties in any order. */
  predicate IsOrder(rows: seq<AuditRow>, order: seq<int>) {
    && Listed(Backlog(rows), order)
    && Elems(order) == Backlog(rows).Keys
    && Descending(Vals(Backlog(rows), order))
  }

  function Batch(order: seq<int>): seq<int> { if |order| > BATCH then order[..BATCH] else order }

  // ----- marking -----

  predicate DistinctIds(rows: seq<AuditRow>) { forall i, j :: 0 <= i < j < |rows| ==> rows[i].id != rows[j].id }

  predicate Positions(rows: seq<AuditRow>, order: seq<int>) { forall k :: 0 <= k < |order| ==> 0 <= order[k] < |rows| }

  /** Marks the rows at the positions one after the other, each by its id. */
  function MarkAll(rows: seq<AuditRow>, order: seq<int>): (r: seq<AuditRow>)
    requires Positions(rows, order)
    ensures |r| == |rows|
    decreases |order|
  {
    if order == [] then rows else MarkAll(MarkDelivered(rows, rows[order[0]].id), order[1..])
  }

  /** Rows keep their identity, wallet and number. */
  predicate SameRows(a: seq<AuditRow>, b: seq<AuditRow>) {
    |a| == |b| && forall i :: 0 <= i < |a| ==>
      a[i].id == b[i].id && a[i].wallet == b[i].wallet && a[i].seqNo == b[i].seqNo
  }

  lemma {:induction false} MarkOneAt(rows: seq<AuditRow>, id: Id)
    requires DistinctIds(rows)
    ensures SameRows(MarkDelivered(rows, id), rows)
    ensures forall i :: 0 <= i < |rows| ==>
              (MarkDelivered(rows, id)[i].delivered <==> rows[i].delivered || rows[i].id == id)
  {
    if rows != [] && rows[0].id != id {
      var tail, r := rows[1..], MarkDelivered(rows, id);
      MarkOneAt(tail, id);
      forall i | 1 <= i < |rows|
        ensures r[i].id == rows[i].id && r[i].wallet == rows[i].wallet && r[i].seqNo == rows[i].seqNo
        ensures r[i].delivered <==> rows[i].delivered || rows[i].id == id
      {
        assert r[i] == MarkDelivered(tail, id)[i - 1] && rows[i] == tail[i - 1];
      }
    }
  }

  lemma {:induction false} MarkAllAt(rows: seq<AuditRow>, order: seq<int>)
    requires DistinctIds(rows) && Positions(rows, order)
    ensures SameRows(MarkAll(rows, order), rows)
    ensures forall i :: 0 <= i < |rows| ==> (MarkAll(rows, order)[i].delivered <==> rows[i].delivered || i in order)
    decreases |order|
  {
    if order != [] {
      var r := MarkDelivered(rows, rows[order[0]].id);
      MarkOneAt(rows, rows[order[0]].id);
      assert DistinctIds(r);
      MarkAllAt(r, order[1..]);
      assert forall i :: i in order <==> i == order[0] || i in order[1..];
      assert forall i :: 0 <= i < |rows| ==> (rows[i].id == rows[order[0]].id <==> i == order[0]);
    }
  }

  // ----- steps -----

  datatype Step =
    | Emit(id: Id, eventId: Id, wallet: Option<Id>, eventType: string, stamp: int)
    | Drain(order: seq<int>, received: nat, sinkOk: bool, marked: nat)

  /** Row and event ids are fresh; a failing sink received some first part of the
      batch, and marking may stop part-way. */
  predicate Enabled(s: State, step: Step) {
    match step
    case Emit(id, eventId, wallet, eventType, stamp) =>
      (forall i :: 0 <= i < |s.rows| ==> s.rows[i].id != id) && FreshEvent(s.rows, eventId)
    case Drain(order, received, sinkOk, marked) =>
      && IsOrder(s.rows, order)
      && received <= |Batch(order)| && marked <= |Batch(order)|
      && (sinkOk ==> received == |Batch(order)|)
  }

  function Number(counters: map<Id, int>, wallet: Option<Id>, stamp: int): int {
    if wallet.Some? then SeqOf(counters, wallet.value) + 1 else stamp
  }

  function Count(counters: map<Id, int>, wallet: Option<Id>): map<Id, int> {
    if wallet.Some? then NextSeq(counters, wallet.value) else counters
  }

  function Next(s: State, step: Step): State
    requires Enabled(s, step)
  {
    match step
    case Emit(id, eventId, wallet, eventType, stamp) =>
      State(s.rows + [AuditRow(id, eventId, wallet, eventType, Number(s.counters, wallet, stamp), false, 0)],
            Count(s.counters, wallet), s.log)
    case Drain(order, received, sinkOk, marked) =>
      State(if sinkOk then MarkAll(s.rows, Batch(order)[..marked]) else s.rows, s.counters,
            s.log + Batch(order)[..received])
  }

  predicate IsRun(s: State, steps: seq<Step>)
    decreases |steps|
  {
    steps == [] || (Enabled(s, steps[0]) && IsRun(Next(s, steps[0]), steps[1..]))
  }

  function Run(s: State, steps: seq<Step>): State
    requires IsRun(s, steps)
    decreases |steps|
  {
    if steps == [] then s else Run(Next(s, steps[0]), steps[1..])
  }

  // ----- invariants -----

  /** Row i is event number n of the wallet. */
  predicate IsEvent(rows: seq<AuditRow>, i: int, wallet: Id, n: int) {
    0 <= i < |rows| && rows[i].wallet == Some(wallet) && rows[i].seqNo == n
  }

  ghost predicate HasEvent(rows: seq<AuditRow>, wallet: Id, n: int) { exists i :: IsEvent(rows, i, wallet, n) }

  /** A wallet's rows are numbered 1 to its counter, each number once. */
  ghost predicate Numbered(rows: seq<AuditRow>, counters: map<Id, int>) {
    && DistinctIds(rows)
    && (forall w :: w in counters ==> counters[w] >= 0)
    && (forall i, w, n :: IsEvent(rows, i, w, n) ==> 1 <= n <= SeqOf(counters, w))
    && (forall i, j, w, n :: IsEvent(rows, i, w, n) && IsEvent(rows, j, w, n) ==> i == j)
    && (forall w, n :: 1 <= n <= SeqOf(counters, w) ==> HasEvent(rows, w, n))
  }

  /** Earlier events of a wallet are delivered before later ones. */
  ghost predicate DeliveredInOrder(rows: seq<AuditRow>) {
    forall i, j, w, m, n :: IsEvent(rows, i, w, m) && IsEvent(rows, j, w, n) && m < n && rows[j].delivered ==> rows[i].delivered
  }

  /** Every delivered row reached the sink. */
  ghost predicate DeliveredLogged(s: State) {
    forall i :: 0 <= i < |s.rows| && s.rows[i].delivered ==> i in s.log
  }

  ghost predicate LoggedBefore(s: State, p: int, wallet: Id, n: int)
    requires 0 <= p <= |s.log|
  {
    exists j :: j in s.log[..p] && IsEvent(s.rows, j, wallet, n)
  }

  /** Whenever the sink receives a wallet's event, it has the one before. */
  ghost predicate LogHasNoGaps(s: State) {
    forall p, w, n :: 0 <= p < |s.log| && IsEvent(s.rows, s.log[p], w, n) && n > 1 ==> LoggedBefore(s, p, w, n - 1)
  }

  ghost predicate Inv(s: State) {
    && Numbered(s.rows, s.counters) && DeliveredInOrder(s.rows) && DeliveredLogged(s)
    && Positions(s.rows, s.log) && LogHasNoGaps(s)
  }

  // ----- emitting -----

  lemma EmitNumbers(s: State, step: Step)
    requires Inv(s) && step.Emit? && Enabled(s, step)
    ensures Numbered(Next(s, step).rows, Next(s, step).counters)
  {
    var t := Next(s, step);
    forall w, n | 1 <= n <= SeqOf(t.counters, w) ensures HasEvent(t.rows, w, n) {
      if n <= SeqOf(s.counters, w) {
        assert HasEvent(s.rows, w, n);
        var i :| IsEvent(s.rows, i, w, n);
        assert IsEvent(t.rows, i, w, n);
      } else {
        assert IsEvent(t.rows, |s.rows|, w, n);
      }
    }
    forall i, w, n | IsEvent(t.rows, i, w, n) && i < |s.rows| ensures IsEvent(s.rows, i, w, n) { }
  }

  lemma EmitKeeps(s: State, step: Step)
    requires Inv(s) && step.Emit? && Enabled(s, step)
    ensures Inv(Next(s, step))
  {
    var t := Next(s, step);
    EmitNumbers(s, step);
    forall i, w, n | IsEvent(t.rows, i, w, n) && i < |s.rows| ensures IsEvent(s.rows, i, w, n) { }
    forall p, w, n | 0 <= p < |t.log| && IsEvent(t.rows, t.log[p], w, n) && n > 1
      ensures LoggedBefore(t, p, w, n - 1)
    {
      assert LoggedBefore(s, p, w, n - 1);
      var j :| j in s.log[..p] && IsEvent(s.rows, j, w, n - 1);
      assert j in t.log[..p] && IsEvent(t.rows, j, w, n - 1);
    }
  }

  // ----- draining -----

  /** In a listing, a wallet's undelivered events come in number order. */
  lemma EarlierListedFirst(rows: seq<AuditRow>, order: seq<int>, q: nat, i: int, w: Id, m: int, n: int)
    requires IsOrder(rows, order) && q < |order|
    requires IsEvent(rows, order[q], w, n) && IsEvent(rows, i, w, m) && m < n && !rows[i].delivered
    ensures i in order[..q]
  {
    var vals := Vals(Backlog(rows), order);
    assert i in Elems(order);
    var k :| 0 <= k < |order| && order[k] == i;
    assert vals[k] == -m && vals[q] == -n;
    assert k < q;
  }

  lemma BatchIsPrefix(rows: seq<AuditRow>, order: seq<int>, k: nat)
    requires IsOrder(rows, order) && k <= |Batch(order)|
    ensures k <= |order| && Batch(order)[..k] == order[..k] && Positions(rows, order[..k])
    ensures forall q :: 0 <= q < k ==> !rows[order[q]].delivered
  {
  }

  lemma MarkKeepsOrder(rows: seq<AuditRow>, order: seq<int>, k: nat)
    requires DistinctIds(rows) && DeliveredInOrder(rows) && IsOrder(rows, order) && k <= |order|
    requires Positions(rows, order[..k])
    ensures DeliveredInOrder(MarkAll(rows, order[..k]))
  {
    MarkAllAt(rows, order[..k]);
    var r := MarkAll(rows, order[..k]);
    forall i, j, w, m, n | IsEvent(r, i, w, m) && IsEvent(r, j, w, n) && m < n && r[j].delivered
      ensures r[i].delivered
    {
      assert IsEvent(rows, i, w, m) && IsEvent(rows, j, w, n);
      if !rows[j].delivered && !rows[i].delivered {
        var q :| 0 <= q < k && order[q] == j;
        EarlierListedFirst(rows, order, q, i, w, m, n);
      }
    }
  }

  lemma ReceiveKeepsLog(s: State, order: seq<int>, k: nat)
    requires Inv(s) && IsOrder(s.rows, order) && k <= |order| && Positions(s.rows, order[..k])
    ensures LogHasNoGaps(s.(log := s.log + order[..k]))
  {
    var t := s.(log := s.log + order[..k]);
    forall p, w, n | 0 <= p < |t.log| && IsEvent(t.rows, t.log[p], w, n) && n > 1
      ensures LoggedBefore(t, p, w, n - 1)
    {
      if p < |s.log| {
        assert LoggedBefore(s, p, w, n - 1);
        assert t.log[..p] == s.log[..p];
      } else {
        var q := p - |s.log|;
        assert HasEvent(s.rows, w, n - 1);
        var j :| IsEvent(s.rows, j, w, n - 1);
        if s.rows[j].delivered {
          assert j in s.log;
        } else {
          EarlierListedFirst(s.rows, order, q, j, w, n - 1, n);
        }
        assert t.log[..p] == s.log + order[..q];
        assert j in t.log[..p];
      }
    }
  }

  lemma RelabelKeeps(s: State, rows: seq<AuditRow>)
    requires Numbered(s.rows, s.counters) && LogHasNoGaps(s) && SameRows(rows, s.rows)
    ensures Numbered(rows, s.counters) && LogHasNoGaps(s.(rows := rows))
  {
    var t := s.(rows := rows);
    assert forall i, w, n :: IsEvent(rows, i, w, n) <==> IsEvent(s.rows, i, w, n);
    forall w, n | HasEvent(s.rows, w, n) ensures HasEvent(rows, w, n) {
      var i :| IsEvent(s.rows, i, w, n);
      assert IsEvent(rows, i, w, n);
    }
    forall p, w, n | 0 <= p < |t.log| && IsEvent(t.rows, t.log[p], w, n) && n > 1
      ensures LoggedBefore(t, p, w, n - 1)
    {
      assert LoggedBefore(s, p, w, n - 1);
      var j :| j in s.log[..p] && IsEvent(s.rows, j, w, n - 1);
      assert j in t.log[..p] && IsEvent(t.rows, j, w, n - 1);
    }
  }

  lemma DrainKeeps(s: State, step: Step)
    requires Inv(s) && step.Drain? && Enabled(s, step)
    ensures Inv(Next(s, step))
  {
    var order := step.order;
    BatchIsPrefix(s.rows, order, step.received);
    ReceiveKeepsLog(s, order, step.received);
    var got := s.(log := s.log + order[..step.received]);
    if step.sinkOk {
      BatchIsPrefix(s.rows, order, step.marked);
      MarkAllAt(s.rows, order[..step.marked]);
      MarkKeepsOrder(s.rows, order, step.marked);
      RelabelKeeps(got, MarkAll(s.rows, order[..step.marked]));
      assert forall i :: i in order[..step.marked] ==> i in order[..step.received];
    }
  }

  lemma {:induction false} RunKeeps(s: State, steps: seq<Step>)
    requires Inv(s) && IsRun(s, steps)
    ensures Inv(Run(s, steps))
    decreases |steps|
  {
    if steps != [] {
      if steps[0].Emit? {
        EmitKeeps(s, steps[0]);
      } else {
        DrainKeeps(s, steps[0]);
      }
      RunKeeps(Next(s, steps[0]), steps[1..]);
    }
  }

  // ----- the service as it runs -----

  /** Takes the next number of the wallet and appends the row. */
  method EmitEvent(db: Db, id: Id, eventId: Id, wallet: Option<Id>, eventType: string, stamp: int) returns (ok: bool)
    requires db.Valid()
    modifies db.Repr
    ensures db.Valid() && fresh(db.Repr - old(db.Repr))
    ensures ok <==> FreshEvent(old(db.view).auditOutbox, eventId)
    ensures db.view == old(db.view).(
      auditSeq := Count(old(db.view).auditSeq, wallet),
      auditOutbox := Append(old(db.view).auditOutbox,
        AuditRow(id, eventId, wallet, eventType, Number(old(db.view).auditSeq, wallet, stamp), false, 0)))
  {
    var n := stamp;
    if wallet.Some? {
      n := db.NextAuditSeq(wallet.value);
    }
    ok := db.AppendAuditEvent(AuditRow(id, eventId, wallet, eventType, n, false, 0));
  }

  method ListUndelivered(db: Db) returns (order: seq<int>)
    requires db.Valid()
    ensures IsOrder(db.view.auditOutbox, order)
  {
    var rows := db.Outbox();
    var open: seq<int> := [];
    for i := 0 to |rows|
      invariant Distinct(open)
      invariant forall k :: k in open <==> 0 <= k < i && !rows[k].delivered
    {
      if !rows[i].delivered {
        open := open + [i];
      }
    }
    assert forall k :: 0 <= k < |open| ==> open[k] in open;
    order := SortByValue(Backlog(rows), open);
  }

  /** Marks the listed rows one after the other. */
  method MarkBatch(db: Db, events: seq<int>)
    requires db.Valid() && Positions(db.view.auditOutbox, events)
    modifies db.Repr
    ensures db.Valid() && fresh(db.Repr - old(db.Repr))
    ensures db.view == old(db.view).(auditOutbox := MarkAll(old(db.view).auditOutbox, events))
  {
    ghost var rows := db.view.auditOutbox;
    for i := 0 to |events|
      invariant db.Valid() && fresh(db.Repr - old(db.Repr))
      invariant db.view == old(db.view).(auditOutbox := db.view.auditOutbox)
      invariant Positions(db.view.auditOutbox, events[i..])
      invariant MarkAll(db.view.auditOutbox, events[i..]) == MarkAll(rows, events)
    {
      assert events[i..][0] == events[i] && events[i..][1..] == events[i + 1..];
      var now := db.Outbox();
      var id := now[events[i]].id;
      var _ := db.MarkAuditDelivered(id);
    }
  }

  /** Lists, delivers, then marks up to `marks` rows. `sinkOk` and `marks` are
      what the sink and the marking loop get to. */
  method DrainOnce(db: Db, sinkOk: bool, marks: nat) returns (ghost order: seq<int>)
    requires db.Valid()
    modifies db.Repr
    ensures db.Valid() && fresh(db.Repr - old(db.Repr))
    ensures IsOrder(old(db.view).auditOutbox, order)
    ensures var batch := Batch(order);
            var k := if marks < |batch| then marks else |batch|;
            Positions(old(db.view).auditOutbox, batch[..k])
            && db.view == old(db.view).(auditOutbox :=
                 if sinkOk then MarkAll(old(db.view).auditOutbox, batch[..k]) else old(db.view).auditOutbox)
  {
    var listed := ListUndelivered(db);
    order := listed;
    var events := Batch(listed);
    BatchIsPrefix(db.view.auditOutbox, listed, |events|);
    if !sinkOk {
      return;
    }
    MarkBatch(db, events[..if marks < |events| then marks else |events|]);
  }

  // ----- theorems -----

  /** The delivered events of a wallet are exactly numbers 1 to k. */
  ghost predicate DeliveredUpTo(s: State, wallet: Id, k: int) {
    && 0 <= k <= SeqOf(s.counters, wallet)
    && forall i, n :: IsEvent(s.rows, i, wallet, n) ==> (s.rows[i].delivered <==> n <= k)
  }

  lemma {:induction false} FindFrontier(s: State, wallet: Id, k: nat)
    requires Inv(s) && k <= SeqOf(s.counters, wallet)
    requires forall i, n :: IsEvent(s.rows, i, wallet, n) && n > k ==> !s.rows[i].delivered
    ensures exists f :: DeliveredUpTo(s, wallet, f)
    decreases k
  {
    if k == 0 {
      assert DeliveredUpTo(s, wallet, 0);
    } else {
      assert HasEvent(s.rows, wallet, k);
      var i :| IsEvent(s.rows, i, wallet, k);
      if s.rows[i].delivered {
        assert DeliveredUpTo(s, wallet, k);
      } else {
        FindFrontier(s, wallet, k - 1);
      }
    }
  }

  /** In every run of emits and drains, with sink failures and marking stopped
      part-way: a wallet's delivered events are numbers 1 to some k, every one of
      them reached the sink, and the sink saw numbers in order without gaps. */
  lemma DeliveryIsInOrder(steps: seq<Step>, wallet: Id)
    requires IsRun(START, steps)
    ensures exists k :: DeliveredUpTo(Run(START, steps), wallet, k)
    ensures DeliveredLogged(Run(START, steps)) && LogHasNoGaps(Run(START, steps))
  {
    RunKeeps(START, steps);
    FindFrontier(Run(START, steps), wallet, SeqOf(Run(START, steps).counters, wallet));
  }

  lemma MarkedBacklog(rows: seq<AuditRow>, done: seq<int>)
    requires DistinctIds(rows) && Positions(rows, done)
    ensures Backlog(MarkAll(rows, done)).Keys == Backlog(rows).Keys - Elems(done)
  {
    MarkAllAt(rows, done);
  }

  /** A drain that succeeds takes a full batch, or all there is, off the backlog. */
  lemma DrainShrinksBacklog(s: State, order: seq<int>)
    requires DistinctIds(s.rows) && IsOrder(s.rows, order)
    ensures var n := |Backlog(s.rows)|;
            var k := |Batch(order)|;
            Enabled(s, Drain(order, k, true, k))
            && |Backlog(Next(s, Drain(order, k, true, k)).rows)| == if n > 100 then n - 100 else 0
  {
    var k := |Batch(order)|;
    var done := order[..k];
    BatchIsPrefix(s.rows, order, k);
    MarkedBacklog(s.rows, done);
    ListedSize(Backlog(s.rows), order);
    PrefixIsSum(Backlog(s.rows), order, k);
    assert Batch(order)[..k] == done;
    assert |Backlog(s.rows).Keys| == |order| && |Elems(done)| == k;
    assert Elems(done) <= Backlog(s.rows).Keys;
    Removed(Backlog(s.rows).Keys, Elems(done));
  }

  lemma Removed<T>(a: set<T>, b: set<T>)
    requires b <= a
    ensures |a - b| == |a| - |b|
  {
    assert a == (a - b) + b;
  }

  /** Successful drains and nothing else. */
  predicate AllSucceed(s: State, steps: seq<Step>)
    decreases |steps|
  {
    steps == []
    || (steps[0].Drain? && Enabled(s, steps[0]) && steps[0].sinkOk && steps[0].marked == |Batch(steps[0].order)|
        && AllSucceed(Next(s, steps[0]), steps[1..]))
  }

  /** One successful drain for each started hundred of the backlog empties it. */
  lemma {:induction false} DrainsEmptyBacklog(s: State, steps: seq<Step>)
    requires Inv(s) && AllSucceed(s, steps)
    ensures IsRun(s, steps)
    ensures |Backlog(s.rows)| <= 100 * |steps| ==> |Backlog(Run(s, steps).rows)| == 0
    decreases |steps|
  {
    if steps != [] {
      var order := steps[0].order;
      DrainShrinksBacklog(s, order);
      assert steps[0] == Drain(order, |Batch(order)|, true, |Batch(order)|);
      DrainKeeps(s, steps[0]);
      DrainsEmptyBacklog(Next(s, steps[0]), steps[1..]);
    }
  }
}
