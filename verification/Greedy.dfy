/** Picking the k largest of a finite family of numbers, and sums over sets. */
module Greedy {

  /** The sum of the values of the keys in a set. */
  ghost function SumSet<T>(m: map<T, int>, s: set<T>): int
    requires s <= m.Keys
  {
    if s == {} then 0
    else
      var x :| x in s;
      m[x] + SumSet(m, s - {x})
  }

  lemma {:induction false} SumSetPick<T>(m: map<T, int>, s: set<T>, x: T)
    requires s <= m.Keys && x in s
    ensures SumSet(m, s) == m[x] + SumSet(m, s - {x})
    decreases |s|
  {
    var y :| y in s && SumSet(m, s) == m[y] + SumSet(m, s - {y});
    if y != x {
      SumSetPick(m, s - {y}, x);
      SumSetPick(m, s - {x}, y);
      assert s - {y} - {x} == s - {x} - {y};
    }
  }

  predicate Distinct<T(==)>(s: seq<T>) { forall i, j :: 0 <= i < j < |s| ==> s[i] != s[j] }

  function Elems<T(!new)>(s: seq<T>): (r: set<T>)
    ensures forall x :: x in r <==> x in s
  {
    set x | x in s
  }

  /** Distinct keys of the map, in some order. */
  predicate Listed<T(==)>(m: map<T, int>, order: seq<T>) {
    Distinct(order) && forall i :: 0 <= i < |order| ==> order[i] in m
  }

  function Vals<T>(m: map<T, int>, order: seq<T>): (v: seq<int>)
    requires Listed(m, order)
    ensures |v| == |order| && forall i :: 0 <= i < |v| ==> v[i] == m[order[i]]
  {
    seq(|order|, i requires 0 <= i < |order| => m[order[i]])
  }

  /** The sum of the first k values. */
  function Prefix(vals: seq<int>, k: nat): int
    requires k <= |vals|
  {
    if k == 0 then 0 else Prefix(vals, k - 1) + vals[k - 1]
  }

  lemma {:induction false} PrefixOfInit(vals: seq<int>, n: nat, k: nat)
    requires k <= n <= |vals|
    ensures Prefix(vals[..n], k) == Prefix(vals, k)
  {
    if k > 0 {
      PrefixOfInit(vals, n, k - 1);
    }
  }

  lemma TakeOne<T(!new)>(order: seq<T>, k: nat)
    requires Distinct(order) && 0 < k <= |order|
    ensures order[k - 1] in Elems(order[..k])
    ensures Elems(order[..k]) - {order[k - 1]} == Elems(order[..k - 1])
  {
    assert order[..k] == order[..k - 1] + [order[k - 1]];
  }

  lemma {:induction false} PrefixIsSum<T(!new)>(m: map<T, int>, order: seq<T>, k: nat)
    requires Listed(m, order) && k <= |order|
    ensures Elems(order[..k]) <= m.Keys && |Elems(order[..k])| == k
    ensures Prefix(Vals(m, order), k) == SumSet(m, Elems(order[..k]))
  {
    if k > 0 {
      PrefixIsSum(m, order, k - 1);
      TakeOne(order, k);
      SumSetPick(m, Elems(order[..k]), order[k - 1]);
    }
  }

  lemma Cardinality<T>(a: set<T>, b: set<T>)
    requires a <= b
    ensures |a| <= |b|
    ensures |a| == |b| ==> a == b
  {
    assert b == a + (b - a);
  }

  predicate Descending(vals: seq<int>) { forall i, j :: 0 <= i < j < |vals| ==> vals[i] >= vals[j] }

  lemma Absent<T>(a: set<T>, b: set<T>) returns (x: T)
    requires a <= b && |a| < |b|
    ensures x in b && x !in a
  {
    assert b == a + (b - a);
    assert b - a != {};
    x :| x in b - a;
  }

  /** Swapping a key for one worth at least as much cannot lower the sum. */
  lemma SwapUp<T>(m: map<T, int>, s: set<T>, out: T, x: T)
    requires s <= m.Keys && x in m && out in s && x !in s && m[x] >= m[out]
    ensures |s - {out} + {x}| == |s|
    ensures SumSet(m, s) <= SumSet(m, s - {out} + {x})
  {
    var t := s - {out} + {x};
    SumSetPick(m, s, out);
    SumSetPick(m, t, x);
    assert t - {x} == s - {out};
  }

  lemma InitListed<T(!new)>(m: map<T, int>, order: seq<T>)
    requires order != [] && Listed(m, order) && Descending(Vals(m, order))
    ensures var init := order[..|order| - 1];
            && Listed(m, init) && Descending(Vals(m, init))
            && Vals(m, init) == Vals(m, order)[..|init|]
            && Elems(order) == Elems(init) + {order[|order| - 1]} && order[|order| - 1] !in Elems(init)
  {
    var init := order[..|order| - 1];
    assert order == init + [order[|order| - 1]];
    assert Vals(m, init) == Vals(m, order)[..|init|];
  }

  lemma ListedSize<T(!new)>(m: map<T, int>, order: seq<T>)
    requires Listed(m, order)
    ensures Elems(order) <= m.Keys && |Elems(order)| == |order|
    ensures Prefix(Vals(m, order), |order|) == SumSet(m, Elems(order))
  {
    PrefixIsSum(m, order, |order|);
    assert order[..|order|] == order;
  }

  /** Among all sets of k listed keys the first k are worth the most. */
  lemma {:induction false} TopKIsBest<T(!new)>(m: map<T, int>, order: seq<T>, s: set<T>)
    requires Listed(m, order) && Descending(Vals(m, order))
    requires s <= Elems(order)
    ensures s <= m.Keys && |s| <= |order|
    ensures SumSet(m, s) <= Prefix(Vals(m, order), |s|)
    decreases |order|
  {
    ListedSize(m, order);
    Cardinality(s, Elems(order));
    if |s| < |order| {
      var init, last := order[..|order| - 1], order[|order| - 1];
      InitListed(m, order);
      var t := s;
      if last in s {
        var x := Absent(s, Elems(order));
        SwapUp(m, s, last, x);
        t := s - {last} + {x};
      }
      assert t <= Elems(init);
      TopKIsBest(m, init, t);
      PrefixOfInit(Vals(m, order), |init|, |s|);
    }
  }

  // ----- taking values until a target is reached -----

  /** How many values are taken from position k on. */
  function Cut(vals: seq<int>, amount: int, k: nat): (c: nat)
    requires k <= |vals|
    ensures k <= c <= |vals|
    ensures forall j :: k <= j < c ==> Prefix(vals, j) < amount
    ensures c < |vals| ==> Prefix(vals, c) >= amount
    decreases |vals| - k
  {
    if k == |vals| || Prefix(vals, k) >= amount then k else Cut(vals, amount, k + 1)
  }

  /** No set of listed keys reaches the target with fewer keys. */
  lemma CutIsMinimal<T(!new)>(m: map<T, int>, order: seq<T>, amount: int, s: set<T>)
    requires Listed(m, order) && Descending(Vals(m, order))
    requires s <= Elems(order) && s <= m.Keys && SumSet(m, s) >= amount
    ensures Cut(Vals(m, order), amount, 0) <= |s|
    ensures Prefix(Vals(m, order), Cut(Vals(m, order), amount, 0)) >= amount
  {
    TopKIsBest(m, order, s);
  }

  /** Leaving out any taken key falls short of the target, by less than its value. */
  lemma CutIsTight<T(!new)>(m: map<T, int>, order: seq<T>, amount: int, x: T)
    requires Listed(m, order) && Descending(Vals(m, order))
    requires Prefix(Vals(m, order), Cut(Vals(m, order), amount, 0)) >= amount
    requires x in order[..Cut(Vals(m, order), amount, 0)]
    ensures var taken := Elems(order[..Cut(Vals(m, order), amount, 0)]);
            taken <= m.Keys && SumSet(m, taken - {x}) < amount && SumSet(m, taken) - amount < m[x]
  {
    var vals := Vals(m, order);
    var c := Cut(vals, amount, 0);
    PrefixIsSum(m, order, c);
    SumSetPick(m, Elems(order[..c]), x);
    assert Prefix(vals, c) == Prefix(vals, c - 1) + vals[c - 1];
  }

  // ----- sorting -----

  lemma InsertListed<T(!new)>(m: map<T, int>, s: seq<T>, x: T, j: nat)
    requires Listed(m, s) && x in m && x !in s && j <= |s|
    ensures var r := s[..j] + [x] + s[j..]; Listed(m, r) && Elems(r) == Elems(s) + {x}
  {
    var r := s[..j] + [x] + s[j..];
    forall i | 0 <= i < |r| ensures r[i] == if i < j then s[i] else if i == j then x else s[i - 1] {}
    assert s == s[..j] + s[j..];
  }

  lemma InsertDescending(v: seq<int>, n: int, j: nat)
    requires Descending(v) && j <= |v|
    requires forall k :: 0 <= k < j ==> v[k] >= n
    requires j < |v| ==> v[j] <= n
    ensures Descending(v[..j] + [n] + v[j..])
  {
    var r := v[..j] + [n] + v[j..];
    forall i | 0 <= i < |r| ensures r[i] == if i < j then v[i] else if i == j then n else v[i - 1] {}
  }

  lemma InsertKeeps<T(!new)>(m: map<T, int>, s: seq<T>, x: T, j: nat)
    requires Listed(m, s) && Descending(Vals(m, s)) && x in m && x !in s && j <= |s|
    requires forall k :: 0 <= k < j ==> m[s[k]] >= m[x]
    requires j < |s| ==> m[s[j]] <= m[x]
    ensures var r := s[..j] + [x] + s[j..];
            Listed(m, r) && Descending(Vals(m, r)) && Elems(r) == Elems(s) + {x}
  {
    var r, v := s[..j] + [x] + s[j..], Vals(m, s);
    InsertListed(m, s, x, j);
    InsertDescending(v, m[x], j);
    assert Vals(m, r) == v[..j] + [m[x]] + v[j..];
  }

  /** Sorts by value, largest first; the order among equals is not promised. */
  method SortByValue<T(!new, ==)>(m: map<T, int>, free: seq<T>) returns (r: seq<T>)
    requires Listed(m, free)
    ensures Listed(m, r) && Elems(r) == Elems(free) && Descending(Vals(m, r))
  {
    r := [];
    for i := 0 to |free|
      invariant Listed(m, r) && Descending(Vals(m, r))
      invariant Elems(r) == Elems(free[..i])
    {
      var x, j := free[i], 0;
      assert free[..i + 1] == free[..i] + [x];
      assert x !in Elems(r);
      while j < |r| && m[r[j]] >= m[x]
        invariant 0 <= j <= |r|
        invariant forall k :: 0 <= k < j ==> m[r[k]] >= m[x]
      {
        j := j + 1;
      }
      InsertKeeps(m, r, x, j);
      r := r[..j] + [x] + r[j..];
    }
    assert free[..|free|] == free;
  }
}
