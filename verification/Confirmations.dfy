/** Where a deposit's amount ends up. The code applies the first event of a
    deposit and ignores the later ones, so an amount first seen below the
    threshold stays pending. */
module Confirmations {
  import opened Text
  import opened Records
  import opened Balances

  function ConfirmedOf(l: Ledger, k: BalanceKey): real { RowAt(l.rows, k).confirmed }

  function PendingOf(l: Ledger, k: BalanceKey): real { RowAt(l.rows, k).pending }

  /** The amounts of a row's events on one side of the threshold, each distinct key
      counted by its first event. */
  function Arrived(ops: seq<Op>, seen: set<string>, k: BalanceKey, side: bool): real
    decreases |ops|
  {
    if ops == [] then 0.0
    else if !ops[0].Confirmation? || ops[0].d.key in seen then Arrived(ops[1..], seen, k, side)
    else Share(Some(ops[0].d), k, side) + Arrived(ops[1..], seen + {ops[0].d.key}, k, side)
  }

  /** What a deposit adds to one side of the row. */
  function Share(d: Option<Deposit>, k: BalanceKey, side: bool): real {
    if d.Some? && d.value.row == k && d.value.confirmed == side then d.value.amount else 0.0
  }

  predicate NoReorgOf(ops: seq<Op>, k: BalanceKey) { forall i :: 0 <= i < |ops| ==> ops[i] != Reorg(k) }

  lemma ApplySplits(l: Ledger, op: Op, k: BalanceKey)
    requires op != Reorg(k)
    ensures var d := if op.Confirmation? && op.d.key !in l.events then Some(op.d) else None;
      && ConfirmedOf(Apply(l, op), k) == ConfirmedOf(l, k) + Share(d, k, true)
      && PendingOf(Apply(l, op), k) == PendingOf(l, k) + Share(d, k, false)
    ensures Apply(l, op).events == if op.Confirmation? then l.events + {op.d.key} else l.events
  {
  }

  /** Without a reorganisation of the row, confirmed grows by the amounts of the
      events first seen confirmed, and pending by those first seen unconfirmed. */
  lemma {:induction false} SplitByFirstEvent(l: Ledger, ops: seq<Op>, k: BalanceKey)
    requires NoReorgOf(ops, k)
    ensures ConfirmedOf(Run(l, ops), k) == ConfirmedOf(l, k) + Arrived(ops, l.events, k, true)
    ensures PendingOf(Run(l, ops), k) == PendingOf(l, k) + Arrived(ops, l.events, k, false)
    decreases |ops|
  {
    if ops != [] {
      var op := ops[0];
      ApplySplits(l, op, k);
      SplitByFirstEvent(Apply(l, op), ops[1..], k);
      if op.Confirmation? && op.d.key in l.events {
        assert l.events + {op.d.key} == l.events;
      }
    }
  }

  // ----- with reorganisations -----

  function Keys(ops: seq<Op>): set<string> { set op | op in ops && op.Confirmation? :: op.d.key }

  lemma {:induction false} RunAppend(l: Ledger, xs: seq<Op>, ys: seq<Op>)
    ensures Run(l, xs + ys) == Run(Run(l, xs), ys)
    decreases |xs|
  {
    if xs == [] {
      assert xs + ys == ys;
    } else {
      RunAppend(Apply(l, xs[0]), xs[1..], ys);
      assert (xs + ys)[1..] == xs[1..] + ys;
    }
  }

  lemma {:induction false} RunRecords(l: Ledger, ops: seq<Op>)
    ensures Run(l, ops).events == l.events + Keys(ops)
    decreases |ops|
  {
    if ops != [] {
      var op := ops[0];
      ApplyTotal(l, op, ("", ""));
      RunRecords(Apply(l, op), ops[1..]);
      assert Keys(ops) == (if op.Confirmation? then {op.d.key} else {}) + Keys(ops[1..]);
    }
  }

  /** How many operations there are up to the last reorganisation of the row. */
  function UpToReorg(ops: seq<Op>, k: BalanceKey): (i: nat)
    ensures i <= |ops| && NoReorgOf(ops[i..], k) && (i > 0 ==> ops[i - 1] == Reorg(k))
    decreases |ops|
  {
    if ops == [] || ops[|ops| - 1] == Reorg(k) then |ops|
    else
      var i := UpToReorg(ops[..|ops| - 1], k);
      assert ops[i..] == ops[..|ops| - 1][i..] + [ops[|ops| - 1]];
      i
  }

  lemma ReorgEmpties(l: Ledger, ops: seq<Op>, k: BalanceKey)
    requires ops != [] && ops[|ops| - 1] == Reorg(k)
    ensures ConfirmedOf(Run(l, ops), k) == 0.0
  {
    var before := ops[..|ops| - 1];
    assert ops == before + [Reorg(k)];
    RunAppend(l, before, [Reorg(k)]);
    assert [Reorg(k)][1..] == [];
    assert Run(Run(l, before), [Reorg(k)]) == Apply(Run(l, before), Reorg(k));
  }

  /** In every run, confirmed is what was confirmed at the start, if the row was
      never reorganised, and the amounts of the keys that were new after its last
      reorganisation and first seen confirmed; the rest of the total is pending. */
  lemma SplitInAnyRun(l: Ledger, ops: seq<Op>, k: BalanceKey)
    ensures var i := UpToReorg(ops, k);
      ConfirmedOf(Run(l, ops), k)
      == (if i == 0 then ConfirmedOf(l, k) else 0.0) + Arrived(ops[i..], l.events + Keys(ops[..i]), k, true)
    ensures PendingOf(Run(l, ops), k) == Total(l, k) + Deposited(ops, l.events, k) - ConfirmedOf(Run(l, ops), k)
  {
    var i := UpToReorg(ops, k);
    var before, after := ops[..i], ops[i..];
    assert ops == before + after;
    RunAppend(l, before, after);
    RunRecords(l, before);
    SplitByFirstEvent(Run(l, before), after, k);
    if i > 0 {
      ReorgEmpties(l, before, k);
    }
    Conservation(l, ops, k);
  }

  // ----- one deposit among the others -----

  /** The first event with the key. */
  function First(ops: seq<Op>, x: string): Option<Deposit>
    decreases |ops|
  {
    if ops == [] then None
    else if ops[0].Confirmation? && ops[0].d.key == x then Some(ops[0].d)
    else First(ops[1..], x)
  }

  /** The same operations without the events of that key. */
  function Without(ops: seq<Op>, x: string): seq<Op>
    decreases |ops|
  {
    if ops == [] then []
    else (if ops[0].Confirmation? && ops[0].d.key == x then [] else [ops[0]]) + Without(ops[1..], x)
  }

  lemma {:induction false} SeenIsIgnored(ops: seq<Op>, seen: set<string>, k: BalanceKey, side: bool, x: string)
    ensures Arrived(ops, seen + {x}, k, side) == Arrived(Without(ops, x), seen, k, side)
    decreases |ops|
  {
    if ops != [] {
      var op, rest := ops[0], ops[1..];
      if op.Confirmation? && op.d.key == x {
        assert Without(ops, x) == Without(rest, x);
        SeenIsIgnored(rest, seen, k, side, x);
      } else {
        assert Without(ops, x)[1..] == Without(rest, x);
        SeenIsIgnored(rest, seen, k, side, x);
        if op.Confirmation? {
          SeenIsIgnored(rest, seen + {op.d.key}, k, side, x);
          assert seen + {x} + {op.d.key} == seen + {op.d.key} + {x};
        }
      }
    }
  }

  lemma {:induction false} FirstCounts(ops: seq<Op>, seen: set<string>, k: BalanceKey, side: bool, x: string)
    requires x !in seen
    ensures Arrived(ops, seen, k, side) == Arrived(Without(ops, x), seen, k, side) + Share(First(ops, x), k, side)
    decreases |ops|
  {
    if ops != [] {
      var op, rest := ops[0], ops[1..];
      if op.Confirmation? && op.d.key == x {
        assert Without(ops, x) == Without(rest, x);
        SeenIsIgnored(rest, seen, k, side, x);
      } else {
        assert Without(ops, x)[1..] == Without(rest, x);
        FirstCounts(rest, seen, k, side, x);
        if op.Confirmation? { FirstCounts(rest, seen + {op.d.key}, k, side, x); }
      }
    }
  }

  lemma {:induction false} WithoutHasNoReorg(ops: seq<Op>, x: string, k: BalanceKey)
    requires NoReorgOf(ops, k)
    ensures NoReorgOf(Without(ops, x), k)
    decreases |ops|
  {
    if ops != [] {
      WithoutHasNoReorg(ops[1..], x, k);
    }
  }

  /** However often a deposit is seen, and whatever happens in between, the row
      differs from the row without it by the first event's amount on the first
      event's side. */
  lemma OnlyFirstEventCounts(l: Ledger, ops: seq<Op>, k: BalanceKey, x: string)
    requires NoReorgOf(ops, k) && x !in l.events
    ensures var a, b := Run(l, ops), Run(l, Without(ops, x));
      && ConfirmedOf(a, k) == ConfirmedOf(b, k) + Share(First(ops, x), k, true)
      && PendingOf(a, k) == PendingOf(b, k) + Share(First(ops, x), k, false)
  {
    WithoutHasNoReorg(ops, x, k);
    SplitByFirstEvent(l, ops, k);
    SplitByFirstEvent(l, Without(ops, x), k);
    FirstCounts(ops, l.events, k, true, x);
    FirstCounts(ops, l.events, k, false, x);
  }

  /** Every event with the key is for this row and amount. */
  predicate IsAbout(ops: seq<Op>, x: string, k: BalanceKey, amount: real) {
    forall op :: op in ops && op.Confirmation? && op.d.key == x ==> op.d.row == k && op.d.amount == amount
  }

  /** The deposit's amount is in confirmed and not in pending. */
  predicate CountsAsConfirmed(l: Ledger, ops: seq<Op>, x: string, k: BalanceKey, amount: real) {
    var a, b := Run(l, ops), Run(l, Without(ops, x));
    ConfirmedOf(a, k) == ConfirmedOf(b, k) + amount && PendingOf(a, k) == PendingOf(b, k)
  }

  lemma {:induction false} FirstIsThere(ops: seq<Op>, x: string, op: Op)
    requires op in ops && op.Confirmation? && op.d.key == x
    ensures First(ops, x).Some? && Confirmation(First(ops, x).value) in ops && First(ops, x).value.key == x
    decreases |ops|
  {
    if !(ops[0].Confirmation? && ops[0].d.key == x) {
      FirstIsThere(ops[1..], x, op);
    }
  }

  /** A deposit that reaches the threshold counts as confirmed if and only if it
      had reached it when it was first seen. */
  lemma ConfirmedIffAtFirst(l: Ledger, ops: seq<Op>, x: string, k: BalanceKey, amount: real, op: Op)
    requires NoReorgOf(ops, k) && x !in l.events && IsAbout(ops, x, k, amount) && amount != 0.0
    requires op in ops && op.Confirmation? && op.d.key == x && op.d.confirmed
    ensures First(ops, x).Some?
    ensures CountsAsConfirmed(l, ops, x, k, amount) <==> First(ops, x).value.confirmed
  {
    FirstIsThere(ops, x, op);
    OnlyFirstEventCounts(l, ops, k, x);
  }

  /** A bitcoin deposit seen without confirmations and again with six, the number
      asked for, stays pending. */
  lemma SecondSightingIsIgnored(wallet: Id, asset: string, amount: real, block: int, eventId: string)
    ensures var cfg := Config(6, 12);
      var seen := Event(wallet, asset, amount, 0, block, eventId, false, Bitcoin);
      var deep := seen.(confirmations := 6);
      var l := Run(Ledger({}, map[]), [Confirmation(Resolve(cfg, seen)), Confirmation(Resolve(cfg, deep))]);
      IsConfirmed(cfg, deep) && ConfirmedOf(l, (wallet, asset)) == 0.0 && PendingOf(l, (wallet, asset)) == amount
  {
    var cfg := Config(6, 12);
    var seen := Event(wallet, asset, amount, 0, block, eventId, false, Bitcoin);
    var a, b := Resolve(cfg, seen), Resolve(cfg, seen.(confirmations := 6));
    var ops := [Confirmation(a), Confirmation(b)];
    var once := Apply(Ledger({}, map[]), ops[0]);
    assert ops[1..] == [Confirmation(b)] && ops[1..][1..] == [];
    assert a.key == b.key && Apply(once, Confirmation(b)) == once;
    assert Run(once, ops[1..]) == once;
  }
}
