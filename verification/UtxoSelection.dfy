/** Coin selection: greedy largest first, stop as soon as the amount is covered,
    then lock all the chosen outputs or none. */
module UtxoSelection {
  import opened Text
  import opened Records
  import opened Greedy
  import opened HeapTables
  import opened MemStore

  /** The value of an output's text; unparsable text counts as zero. */
  function Val(s: string): int {
    var (n, ok) := ParseInt64(s);
    if ok then n else 0
  }

  function Values(us: map<string, Utxo>): (m: map<string, int>)
    ensures m.Keys == us.Keys
  {
    map op | op in us :: Val(us[op].value)
  }

  function FreeOf(us: map<string, Utxo>, wallet: Id): (r: set<string>)
    ensures r <= us.Keys
  {
    set op | op in us && us[op].wallet == wallet && us[op].lock == Free
  }

  /** All free outputs of the wallet, largest value first; ties in any order. */
  predicate IsListing(us: map<string, Utxo>, wallet: Id, order: seq<string>) {
    && Listed(Values(us), order)
    && Elems(order) == FreeOf(us, wallet)
    && Descending(Vals(Values(us), order))
  }

  // ----- the greedy loop over 64-bit totals -----

  /** Two's-complement 64-bit wrap-around. */
  function Wrap(n: int): (w: int)
    ensures IsInt64(w)
    ensures IsInt64(n) ==> w == n
  {
    (n + 0x8000_0000_0000_0000) % 0x1_0000_0000_0000_0000 - 0x8000_0000_0000_0000
  }

  /** How many values the loop takes and the total it ends with. */
  function Loop64(vals: seq<int>, amount: int, k: nat, total: int): (r: (nat, int))
    requires k <= |vals|
    ensures k <= r.0 <= |vals|
    decreases |vals| - k
  {
    if k == |vals| || total >= amount then (k, total)
    else Loop64(vals, amount, k + 1, Wrap(total + vals[k]))
  }

  /** The outpoints a listing yields, or nothing when they fall short. */
  function Choose(us: map<string, Utxo>, order: seq<string>, amount: int): (r: Option<seq<string>>)
    requires Listed(Values(us), order)
  {
    var (k, total) := Loop64(Vals(Values(us), order), amount, 0, 0);
    if total < amount then None else Some(order[..k])
  }

  // ----- optimality over unbounded totals -----

  /** Greedy over unbounded totals covers the amount exactly when some set of
      free outputs does, and no such set is smaller. */
  lemma GreedyIffCovered(us: map<string, Utxo>, wallet: Id, order: seq<string>, amount: int)
    requires IsListing(us, wallet, order)
    ensures var vals := Vals(Values(us), order);
            var c := Cut(vals, amount, 0);
            && (Prefix(vals, c) >= amount <==>
                exists s :: s <= FreeOf(us, wallet) && SumSet(Values(us), s) >= amount)
            && (forall s :: s <= FreeOf(us, wallet) && SumSet(Values(us), s) >= amount ==> c <= |s|)
  {
    var m := Values(us);
    var vals := Vals(m, order);
    var c := Cut(vals, amount, 0);
    forall s | s <= FreeOf(us, wallet) && SumSet(m, s) >= amount
      ensures c <= |s| && Prefix(vals, c) >= amount
    {
      CutIsMinimal(m, order, amount, s);
    }
    if Prefix(vals, c) >= amount {
      PrefixIsSum(m, order, c);
      assert Elems(order[..c]) <= Elems(order);
    }
  }

  /** When it covers the amount, leaving out any chosen output falls short, and
      the surplus is below every chosen value. */
  lemma GreedyIsTight(us: map<string, Utxo>, wallet: Id, order: seq<string>, amount: int)
    requires IsListing(us, wallet, order)
    requires Prefix(Vals(Values(us), order), Cut(Vals(Values(us), order), amount, 0)) >= amount
    ensures var m := Values(us);
            var chosen := Elems(order[..Cut(Vals(m, order), amount, 0)]);
            && chosen <= FreeOf(us, wallet)
            && SumSet(m, chosen) >= amount
            && (forall x :: x in chosen ==> SumSet(m, chosen - {x}) < amount && SumSet(m, chosen) - amount < m[x])
  {
    var m := Values(us);
    var c := Cut(Vals(m, order), amount, 0);
    PrefixIsSum(m, order, c);
    assert Elems(order[..c]) <= Elems(order);
    forall x | x in Elems(order[..c])
      ensures SumSet(m, Elems(order[..c]) - {x}) < amount && SumSet(m, Elems(order[..c])) - amount < m[x]
    {
      CutIsTight(m, order, amount, x);
    }
  }

  // ----- when the 64-bit loop is the unbounded one -----

  predicate NonNegative(vals: seq<int>) { forall i :: 0 <= i < |vals| ==> vals[i] >= 0 }

  /** While every total it passes through is a 64-bit number. */
  lemma {:induction false} LoopIsIdeal(vals: seq<int>, amount: int, k: nat)
    requires k <= |vals|
    requires forall j :: k <= j <= Cut(vals, amount, k) ==> IsInt64(Prefix(vals, j))
    ensures Loop64(vals, amount, k, Prefix(vals, k)) == (Cut(vals, amount, k), Prefix(vals, Cut(vals, amount, k)))
    decreases |vals| - k
  {
    if k < |vals| && Prefix(vals, k) < amount {
      assert Prefix(vals, k + 1) == Prefix(vals, k) + vals[k];
      LoopIsIdeal(vals, amount, k + 1);
    }
  }

  lemma {:induction false} PrefixGrows(vals: seq<int>, j: nat, k: nat)
    requires NonNegative(vals) && j <= k <= |vals|
    ensures 0 <= Prefix(vals, j) <= Prefix(vals, k)
  {
    if j < k {
      PrefixGrows(vals, j, k - 1);
    } else if j > 0 {
      PrefixGrows(vals, j - 1, j - 1);
    }
  }

  lemma {:induction false} LoopIsInt64(vals: seq<int>, amount: int, k: nat, total: int)
    requires k <= |vals| && IsInt64(total)
    ensures IsInt64(Loop64(vals, amount, k, total).1)
    decreases |vals| - k
  {
    if k < |vals| && total < amount {
      LoopIsInt64(vals, amount, k + 1, Wrap(total + vals[k]));
    }
  }

  /** For values that are not negative the machine loop makes the unbounded
      loop's choice if and only if that choice's total is a 64-bit number. */
  lemma NoWrapIff(vals: seq<int>, amount: int)
    requires NonNegative(vals) && IsInt64(amount)
    ensures Loop64(vals, amount, 0, 0) == (Cut(vals, amount, 0), Prefix(vals, Cut(vals, amount, 0)))
       <==> Prefix(vals, Cut(vals, amount, 0)) <= MAX_INT64
  {
    var c := Cut(vals, amount, 0);
    if Prefix(vals, c) <= MAX_INT64 {
      forall j | 0 <= j <= c ensures IsInt64(Prefix(vals, j)) { PrefixGrows(vals, j, c); }
      LoopIsIdeal(vals, amount, 0);
    }
    LoopIsInt64(vals, amount, 0, 0);
  }

  /** Amounts and values up to 2^62 never wrap, however many outputs there are. */
  lemma NoWrapUpTo62Bits(vals: seq<int>, amount: int)
    requires NonNegative(vals) && IsInt64(amount) && amount <= 0x4000_0000_0000_0000
    requires forall i :: 0 <= i < |vals| ==> vals[i] <= 0x4000_0000_0000_0000
    ensures Loop64(vals, amount, 0, 0) == (Cut(vals, amount, 0), Prefix(vals, Cut(vals, amount, 0)))
  {
    var c := Cut(vals, amount, 0);
    if c > 0 {
      assert Prefix(vals, c) == Prefix(vals, c - 1) + vals[c - 1];
    }
    NoWrapIff(vals, amount);
  }

  /** Beyond that the loop can refuse a payment the wallet covers. */
  lemma WrapExample()
    ensures var big := MAX_INT64 - 1;
            && Prefix([big, big], Cut([big, big], MAX_INT64, 0)) >= MAX_INT64
            && Loop64([big, big], MAX_INT64, 0, 0).1 < MAX_INT64
  {
    var big := MAX_INT64 - 1;
    var v := [big, big];
    assert Prefix(v, 1) == Prefix(v, 0) + v[0] && Prefix(v, 2) == Prefix(v, 1) + v[1];
    assert Loop64(v, MAX_INT64, 0, 0) == Loop64(v, MAX_INT64, 1, big);
    assert Loop64(v, MAX_INT64, 1, big) == Loop64(v, MAX_INT64, 2, Wrap(2 * big));
  }

  // ----- how good the 64-bit choice is -----

  /** Success exactly when some set of free outputs covers the amount; then as few
      outputs as in any such set, and none that could be spared. */
  ghost predicate Best(us: map<string, Utxo>, wallet: Id, order: seq<string>, amount: int)
    requires IsListing(us, wallet, order)
  {
    var m, r := Values(us), Choose(us, order, amount);
    && (r.Some? <==> exists s :: s <= FreeOf(us, wallet) && SumSet(m, s) >= amount)
    && (r.Some? ==>
          && Elems(r.value) <= FreeOf(us, wallet) && SumSet(m, Elems(r.value)) >= amount
          && (forall s :: s <= FreeOf(us, wallet) && SumSet(m, s) >= amount ==> |r.value| <= |s|)
          && (forall x :: x in Elems(r.value) ==>
                SumSet(m, Elems(r.value) - {x}) < amount && SumSet(m, Elems(r.value)) - amount < m[x]))
  }

  /** Below the amount the loop goes on, with totals that have not wrapped. */
  lemma {:induction false} LoopReaches(vals: seq<int>, amount: int, k: nat, c: nat)
    requires NonNegative(vals) && IsInt64(amount) && k <= c <= |vals|
    requires forall j :: k <= j < c ==> Prefix(vals, j) < amount
    ensures c > k ==> Loop64(vals, amount, k, Prefix(vals, k)) == Loop64(vals, amount, c, Wrap(Prefix(vals, c)))
    decreases c - k
  {
    if k < c {
      PrefixGrows(vals, k, k);
      assert Prefix(vals, k + 1) == Prefix(vals, k) + vals[k];
      if k + 1 < c {
        PrefixGrows(vals, k + 1, k + 1);
        LoopReaches(vals, amount, k + 1, c);
      }
    }
  }

  /** When the ideal total does not fit, the loop runs past the ideal choice. */
  lemma WrapOvershoots(vals: seq<int>, amount: int)
    requires NonNegative(vals) && IsInt64(amount) && (forall i :: 0 <= i < |vals| ==> IsInt64(vals[i]))
    requires Prefix(vals, Cut(vals, amount, 0)) > MAX_INT64
    ensures var (k, total) := Loop64(vals, amount, 0, 0); k > Cut(vals, amount, 0) || total < amount
  {
    var c := Cut(vals, amount, 0);
    assert c > 0;
    forall j | 0 <= j < c ensures Prefix(vals, j) < amount {}
    PrefixGrows(vals, 0, c - 1);
    assert Prefix(vals, c) == Prefix(vals, c - 1) + vals[c - 1];
    LoopReaches(vals, amount, 0, c);
    assert Wrap(Prefix(vals, c)) < 0 < amount;
  }

  lemma ValuesAreInt64(us: map<string, Utxo>, order: seq<string>)
    requires Listed(Values(us), order)
    ensures forall i :: 0 <= i < |order| ==> IsInt64(Vals(Values(us), order)[i])
  {
    forall i | 0 <= i < |order| ensures IsInt64(Vals(Values(us), order)[i]) {
      assert Values(us)[order[i]] == Val(us[order[i]].value);
    }
  }

  lemma IdealSize(m: map<string, int>, order: seq<string>, c: nat)
    requires Listed(m, order) && c <= |order|
    ensures |Elems(order[..c])| == c
  {
    ListedSize(m, order[..c]);
  }

  lemma BestWhenIdeal(us: map<string, Utxo>, wallet: Id, order: seq<string>, amount: int)
    requires IsListing(us, wallet, order)
    requires var vals := Vals(Values(us), order);
      Loop64(vals, amount, 0, 0) == (Cut(vals, amount, 0), Prefix(vals, Cut(vals, amount, 0)))
    ensures Best(us, wallet, order, amount)
  {
    GreedyIffCovered(us, wallet, order, amount);
    if Choose(us, order, amount).Some? {
      GreedyIsTight(us, wallet, order, amount);
    }
  }

  /** Taking more than a covering set of c outputs, or giving up, is not best. */
  lemma NotBestPastIdeal(us: map<string, Utxo>, wallet: Id, order: seq<string>, amount: int, s: set<string>)
    requires IsListing(us, wallet, order) && s <= FreeOf(us, wallet) && SumSet(Values(us), s) >= amount
    requires Choose(us, order, amount).Some? ==> |Choose(us, order, amount).value| > |s|
    ensures !Best(us, wallet, order, amount)
  {
  }

  lemma NotBestWhenWrapped(us: map<string, Utxo>, wallet: Id, order: seq<string>, amount: int, c: nat)
    requires IsListing(us, wallet, order) && c <= |order|
    requires Prefix(Vals(Values(us), order), c) >= amount
    requires Choose(us, order, amount).Some? ==> |Choose(us, order, amount).value| > c
    ensures !Best(us, wallet, order, amount)
  {
    PrefixIsSum(Values(us), order, c);
    IdealSize(Values(us), order, c);
    assert Elems(order[..c]) <= Elems(order);
    NotBestPastIdeal(us, wallet, order, amount, Elems(order[..c]));
  }

  /** The selection as the code makes it, over values that are not negative, is
      the best one if and only if the ideal choice's total is a 64-bit number. */
  lemma SelectionIsBestIff(us: map<string, Utxo>, wallet: Id, order: seq<string>, amount: int)
    requires IsListing(us, wallet, order) && IsInt64(amount) && NonNegative(Vals(Values(us), order))
    ensures var vals := Vals(Values(us), order);
      Best(us, wallet, order, amount) <==> Prefix(vals, Cut(vals, amount, 0)) <= MAX_INT64
  {
    var vals := Vals(Values(us), order);
    if Prefix(vals, Cut(vals, amount, 0)) <= MAX_INT64 {
      NoWrapIff(vals, amount);
      BestWhenIdeal(us, wallet, order, amount);
    } else {
      ValuesAreInt64(us, order);
      WrapOvershoots(vals, amount);
      NotBestWhenWrapped(us, wallet, order, amount, Cut(vals, amount, 0));
    }
  }

  /** In particular amounts and values up to 2^62 are always served best, however
      many outputs there are. */
  lemma SelectionIsBest(us: map<string, Utxo>, wallet: Id, order: seq<string>, amount: int)
    requires IsListing(us, wallet, order) && IsInt64(amount) && amount <= 0x4000_0000_0000_0000
    requires forall op :: op in order ==> 0 <= Values(us)[op] <= 0x4000_0000_0000_0000
    ensures Best(us, wallet, order, amount)
  {
    var vals := Vals(Values(us), order);
    forall i | 0 <= i < |vals| ensures 0 <= vals[i] <= 0x4000_0000_0000_0000 {
      assert order[i] in order;
    }
    NoWrapUpTo62Bits(vals, amount);
    NoWrapIff(vals, amount);
    SelectionIsBestIff(us, wallet, order, amount);
  }

  // ----- what an accepted selection is worth -----

  lemma WrapAdds(a: int, b: int)
    ensures Wrap(Wrap(a) + b) == Wrap(a + b)
  {
  }

  /** The loop's total is the true total, wrapped. */
  lemma {:induction false} LoopIsWrapped(vals: seq<int>, amount: int, k: nat)
    requires k <= |vals|
    ensures var (c, t) := Loop64(vals, amount, k, Wrap(Prefix(vals, k))); t == Wrap(Prefix(vals, c))
    decreases |vals| - k
  {
    if k < |vals| && Wrap(Prefix(vals, k)) < amount {
      assert Prefix(vals, k + 1) == Prefix(vals, k) + vals[k];
      WrapAdds(Prefix(vals, k), vals[k]);
      LoopIsWrapped(vals, amount, k + 1);
    }
  }

  /** Wrapping only ever lowers a total that is not below the 64-bit range. */
  lemma WrapLowers(n: int, amount: int)
    requires IsInt64(amount) && Wrap(n) >= amount
    ensures n >= amount <==> n >= MIN_INT64
  {
  }

  /** An accepted selection, over any values at all, names different known outputs
      and covers the amount if and only if its true total is not below the 64-bit
      range; a non-empty one means the amount was positive. */
  lemma ChoiceCoversIff(us: map<string, Utxo>, order: seq<string>, amount: int)
    requires Listed(Values(us), order) && IsInt64(amount)
    requires Choose(us, order, amount).Some?
    ensures var ops := Choose(us, order, amount).value;
            && Distinct(ops) && Elems(ops) <= us.Keys
            && (SumSet(Values(us), Elems(ops)) >= amount <==> SumSet(Values(us), Elems(ops)) >= MIN_INT64)
            && (ops != [] ==> amount > 0)
  {
    var m := Values(us);
    var vals := Vals(m, order);
    var c := Loop64(vals, amount, 0, 0).0;
    LoopIsWrapped(vals, amount, 0);
    PrefixIsSum(m, order, c);
    WrapLowers(Prefix(vals, c), amount);
  }

  /** Whatever is chosen from a listing is free and the wallet's own. */
  lemma ChoiceIsOwn(us: map<string, Utxo>, wallet: Id, order: seq<string>, amount: int)
    requires IsListing(us, wallet, order) && Choose(us, order, amount).Some?
    ensures forall op :: op in Choose(us, order, amount).value ==>
      op in us && us[op].wallet == wallet && us[op].lock == Free
  {
    forall op | op in Choose(us, order, amount).value
      ensures op in us && us[op].wallet == wallet && us[op].lock == Free
    {
      assert op in Elems(order);
    }
  }

  /** A coin's text counts as the number it spells when that is a 64-bit number,
      and as nothing otherwise. */
  lemma ValueOfText(s: string)
    ensures match ParseDecimal(s)
            case Some(n) => Val(s) == if -0x8000_0000_0000_0000 <= n <= 0x7fff_ffff_ffff_ffff then n else 0
            case None => Val(s) == 0
  {
  }

  /** A negative value can take the total below that range and wrap it upwards,
      past an amount it does not cover. */
  lemma NegativeValueOverstates()
    ensures var vals := [-1, MIN_INT64]; Loop64(vals, 1, 0, 0) == (2, MAX_INT64) && Prefix(vals, 2) < MIN_INT64
  {
    var vals := [-1, MIN_INT64];
    assert Prefix(vals, 1) == Prefix(vals, 0) + vals[0];
    assert Prefix(vals, 2) == Prefix(vals, 1) + vals[1];
    assert Wrap(-1 + MIN_INT64) == MAX_INT64;
    assert Loop64(vals, 1, 2, MAX_INT64) == (2, MAX_INT64);
    assert Loop64(vals, 1, 1, -1) == (2, MAX_INT64);
  }

  // ----- the selection as it runs -----

  method ListFreeUTXOs(db: Db, wallet: Id) returns (free: seq<string>)
    requires db.Valid()
    ensures Distinct(free) && Elems(free) == FreeOf(db.view.utxos, wallet)
    ensures forall op :: op in free <==>
      op in db.view.utxos && db.view.utxos[op].wallet == wallet && db.view.utxos[op].lock == Free
  {
    free := [];
    assert Opened(db, 0) && Opened(db.utxos, 0);
    var todo := db.utxos.recs.Keys;
    while todo != {}
      invariant todo <= db.utxos.rows.Keys && Distinct(free)
      invariant forall op :: op in free <==> op in FreeOf(db.utxos.rows, wallet) && op !in todo
    {
      var op :| op in todo;
      var u := db.utxos.Get(op);
      if u.wallet == wallet && u.lock == Free {
        free := free + [op];
      }
      todo := todo - {op};
    }
  }

  /** Takes values off the front until the running 64-bit total reaches the
      amount. */
  method Pick(m: map<string, int>, order: seq<string>, amount: int) returns (k: nat, total: int)
    requires Listed(m, order)
    ensures k <= |order| && (k, total) == Loop64(Vals(m, order), amount, 0, 0)
  {
    ghost var vals := Vals(m, order);
    k, total := 0, 0;
    while k < |order| && total < amount
      invariant 0 <= k <= |order|
      invariant Loop64(vals, amount, k, total) == Loop64(vals, amount, 0, 0)
    {
      total := Wrap(total + m[order[k]]);
      k := k + 1;
    }
  }

  /** Lists, sorts, picks greedily and locks. On success the chosen outputs are
      locked; otherwise nothing changes. */
  method SelectForAmount(db: Db, wallet: Id, amount: int)
    returns (r: Option<seq<string>>, ghost order: seq<string>)
    requires db.Valid()
    modifies db.Repr
    ensures db.Valid() && fresh(db.Repr - old(db.Repr))
    ensures IsListing(old(db.view).utxos, wallet, order)
    ensures r == Choose(old(db.view).utxos, order, amount)
    ensures db.view == old(db.view).(utxos :=
              if r.Some? then LockUtxos(old(db.view).utxos, r.value) else old(db.view).utxos)
    ensures r.Some? ==> forall op :: op in r.value ==>
      && op in old(db.view).utxos && old(db.view).utxos[op].wallet == wallet && old(db.view).utxos[op].lock == Free
    ensures forall op :: op in old(db.view).utxos ==>
      && op in db.view.utxos
      && db.view.utxos[op] == if r.Some? && op in r.value then old(db.view).utxos[op].(lock := Locked)
                              else old(db.view).utxos[op]
  {
    var free := ListFreeUTXOs(db, wallet);
    var m := ReadValues(db);
    var sorted := SortByValue(m, free);
    order := sorted;
    var k, total := Pick(m, sorted, amount);
    if total < amount {
      return None, order;
    }
    var selected := sorted[..k];
    ChoiceIsOwn(db.view.utxos, wallet, order, amount);
    RelockAllAt(db.view.utxos, selected, Locked, None);
    var ok := db.LockUTXOs(selected);
    return Some(selected), order;
  }

  method ReadValues(db: Db) returns (m: map<string, int>)
    requires db.Valid()
    ensures m == Values(db.view.utxos)
  {
    assert Opened(db, 0) && Opened(db.utxos, 0);
    m := map op | op in db.utxos.recs :: Val(db.utxos.recs[op].v.value);
  }
}
