/** Go-style containers of pointed-to records: maps and slices whose records are
    changed in place and copied for snapshots. */
module HeapTables {
  import opened Text

  /** Names the representation of an object. An invariant stated under this name
      stays shut in proofs that do not mention it. */
  predicate Opened(o: object, n: nat) { true }

  /** A heap record. */
  class Cell<T> {
    var v: T
    constructor (v: T)
      ensures this.v == v
    {
      this.v := v;
    }
  }

  /** A map from keys to records. `rows` is its contents by value. */
  class Table<K(==), R> {
    var recs: map<K, Cell<R>>
    ghost var rows: map<K, R>
    ghost var Repr: set<object>

    ghost predicate Valid()
      reads this, Repr
    {
      this in Repr && forall n: nat {:trigger Opened(this, n)} :: Opened(this, n) ==> Inside()
    }

    ghost predicate Inside()
      reads this, Repr
    {
      && this in Repr
      && recs.Keys == rows.Keys
      && (forall k :: k in recs ==> recs[k] in Repr && recs[k].v == rows[k])
      && (forall j, k :: j in recs && k in recs && j != k ==> recs[j] != recs[k])
    }

    constructor ()
      ensures Valid() && Repr == {this} && rows == map[]
    {
      recs := map[];
      rows := map[];
      Repr := {this};
    }

    /** The row a key points to, copied out. */
    method Get(k: K) returns (r: R)
      requires Valid() && k in rows
      ensures r == rows[k]
    {
      assert Opened(this, 0);
      r := recs[k].v;
    }

    /** Overwrites the record a key points to. */
    method Poke(k: K, r: R)
      requires Valid() && k in rows
      modifies Repr
      ensures Valid() && Repr == old(Repr) && rows == old(rows)[k := r]
    {
      assert Opened(this, 0);
      recs[k].v := r;
      rows := rows[k := r];
    }

    /** Points a key at a fresh record. */
    method Put(k: K, r: R)
      requires Valid()
      modifies Repr
      ensures Valid() && fresh(Repr - old(Repr)) && rows == old(rows)[k := r]
    {
      assert Opened(this, 0);
      var c := new Cell(r);
      recs := recs[k := c];
      rows := rows[k := r];
      Repr := Repr + {c};
    }

    method Delete(k: K)
      requires Valid()
      modifies Repr
      ensures Valid() && Repr == old(Repr) && rows == old(rows) - {k}
    {
      assert Opened(this, 0);
      recs := recs - {k};
      rows := rows - {k};
    }

    /** A new map holding a copy of every record. */
    method Copy() returns (t: Table<K, R>)
      requires Valid()
      ensures t.Valid() && fresh(t.Repr) && t.rows == rows
    {
      assert Opened(this, 0);
      t := new Table();
      var todo := recs.Keys;
      while todo != {}
        invariant todo <= recs.Keys
        invariant t.Valid() && fresh(t.Repr)
        invariant t.rows.Keys == rows.Keys - todo
        invariant forall k :: k in t.rows ==> t.rows[k] == rows[k]
      {
        var k :| k in todo;
        var r := Get(k);
        t.Put(k, r);
        todo := todo - {k};
      }
      assert t.rows.Keys == rows.Keys;
    }
  }

  /** Overwrites the row with its new value when the key is present. */
  method PokeIfPresent<K(==), R>(t: Table<K, R>, k: K, f: R -> R) returns (ok: bool)
    requires t.Valid()
    modifies t.Repr
    ensures t.Valid() && t.Repr == old(t.Repr)
    ensures ok <==> k in old(t.rows)
    ensures t.rows == if ok then old(t.rows)[k := f(old(t.rows)[k])] else old(t.rows)
  {
    assert Opened(t, 0);
    if k !in t.recs {
      return false;
    }
    var r := t.Get(k);
    t.Poke(k, f(r));
    return true;
  }

  method PutIfAbsent<K(==), R>(t: Table<K, R>, k: K, r: R) returns (ok: bool)
    requires t.Valid()
    modifies t.Repr
    ensures t.Valid() && fresh(t.Repr - old(t.Repr))
    ensures ok <==> k !in old(t.rows)
    ensures t.rows == if ok then old(t.rows)[k := r] else old(t.rows)
  {
    assert Opened(t, 0);
    if k in t.recs {
      return false;
    }
    t.Put(k, r);
    return true;
  }

  method Lookup<K(==), R>(t: Table<K, R>, k: K) returns (r: Option<R>)
    requires t.Valid()
    ensures r == if k in t.rows then Some(t.rows[k]) else None
  {
    assert Opened(t, 0);
    if k !in t.recs {
      return None;
    }
    var v := t.Get(k);
    return Some(v);
  }

  /** A slice of pointers to records. `rows` is its contents by value. */
  class Log<R> {
    var recs: seq<Cell<R>>
    ghost var rows: seq<R>
    ghost var Repr: set<object>

    ghost predicate Valid()
      reads this, Repr
    {
      this in Repr && forall n: nat {:trigger Opened(this, n)} :: Opened(this, n) ==> Inside()
    }

    ghost predicate Inside()
      reads this, Repr
    {
      && this in Repr
      && |recs| == |rows|
      && (forall i :: 0 <= i < |recs| ==> recs[i] in Repr && recs[i].v == rows[i])
      && (forall i, j :: 0 <= i < j < |recs| ==> recs[i] != recs[j])
    }

    constructor ()
      ensures Valid() && Repr == {this} && rows == []
    {
      recs := [];
      rows := [];
      Repr := {this};
    }

    /** The record at a position, copied out. */
    method Get(i: nat) returns (r: R)
      requires Valid() && i < |rows|
      ensures r == rows[i]
    {
      assert Opened(this, 0);
      r := recs[i].v;
    }

    method Values() returns (r: seq<R>)
      requires Valid()
      ensures r == rows
    {
      assert Opened(this, 0);
      r := [];
      for i := 0 to |recs|
        invariant r == rows[..i]
      {
        r := r + [recs[i].v];
      }
    }

    /** Overwrites the record at a position. */
    method Poke(i: nat, r: R)
      requires Valid() && i < |rows|
      modifies Repr
      ensures Valid() && Repr == old(Repr) && rows == old(rows)[i := r]
    {
      assert Opened(this, 0);
      recs[i].v := r;
      rows := rows[i := r];
    }

    /** Appends a pointer to a fresh record. */
    method Add(r: R)
      requires Valid()
      modifies Repr
      ensures Valid() && fresh(Repr - old(Repr)) && rows == old(rows) + [r]
    {
      assert Opened(this, 0);
      var c := new Cell(r);
      recs := recs + [c];
      rows := rows + [r];
      Repr := Repr + {c};
    }

    /** Copies the pointers first, then points every entry at a copy of its
        record, so that none of the old records is left in the new slice. */
    method Copy() returns (t: Log<R>)
      requires Valid()
      ensures t.Valid() && fresh(t.Repr) && t.rows == rows
    {
      assert Opened(this, 0);
      t := new Log();
      t.recs, t.rows := recs, rows;
      for i := 0 to |recs|
        invariant t.rows == rows && |t.recs| == |recs|
        invariant t in t.Repr && fresh(t.Repr) && t != this
        invariant forall j :: 0 <= j < i ==> t.recs[j] in t.Repr && t.recs[j].v == rows[j]
        invariant forall j, k :: 0 <= j < k < i ==> t.recs[j] != t.recs[k]
        invariant forall j :: i <= j < |recs| ==> t.recs[j] == recs[j]
        invariant t.Repr !! Repr
      {
        var c := new Cell(recs[i].v);
        t.recs := t.recs[i := c];
        t.Repr := t.Repr + {c};
      }
    }
  }

  function Mapped<R>(s: seq<R>, f: R -> R): (t: seq<R>)
    ensures |t| == |s| && forall i :: 0 <= i < |s| ==> t[i] == f(s[i])
  {
    seq(|s|, i requires 0 <= i < |s| => f(s[i]))
  }

  /** Fresh copies of a slice's records. */
  method CopySlice<R>(recs: seq<Cell<R>>) returns (out: seq<Cell<R>>)
    ensures |out| == |recs|
    ensures forall i :: 0 <= i < |out| ==> fresh(out[i]) && out[i].v == recs[i].v
    ensures forall i, j :: 0 <= i < j < |out| ==> out[i] != out[j]
  {
    out := [];
    for i := 0 to |recs|
      invariant |out| == i
      invariant forall j :: 0 <= j < i ==> fresh(out[j]) && out[j].v == recs[j].v
      invariant forall j, k :: 0 <= j < k < i ==> out[j] != out[k]
    {
      var c := new Cell(recs[i].v);
      out := out + [c];
    }
  }

  /** A map from keys to slices of pointers to records. `rows` is its contents by
      value. */
  class Shelf<K(==), R> {
    var recs: map<K, seq<Cell<R>>>
    ghost var rows: map<K, seq<R>>
    ghost var Repr: set<object>

    ghost predicate Valid()
      reads this, Repr
    {
      this in Repr && forall n: nat {:trigger Opened(this, n)} :: Opened(this, n) ==> Inside()
    }

    ghost predicate Inside()
      reads this, Repr
    {
      && this in Repr
      && recs.Keys == rows.Keys
      && (forall k :: k in recs ==> |recs[k]| == |rows[k]|)
      && (forall k, i :: k in recs && 0 <= i < |recs[k]| ==> recs[k][i] in Repr && recs[k][i].v == rows[k][i])
      && (forall k, i, j :: k in recs && 0 <= i < j < |recs[k]| ==> recs[k][i] != recs[k][j])
      && (forall k, l, i, j :: k in recs && l in recs && k != l && 0 <= i < |recs[k]| && 0 <= j < |recs[l]| ==>
            recs[k][i] != recs[l][j])
    }

    constructor ()
      ensures Valid() && Repr == {this} && rows == map[]
    {
      recs := map[];
      rows := map[];
      Repr := {this};
    }

    method Names() returns (ks: set<K>)
      requires Valid()
      ensures ks == rows.Keys
    {
      assert Opened(this, 0);
      ks := recs.Keys;
    }

    /** The length of a slice; a missing one is empty. */
    method Size(k: K) returns (n: nat)
      requires Valid()
      ensures n == if k in rows then |rows[k]| else 0
    {
      assert Opened(this, 0);
      n := if k in recs then |recs[k]| else 0;
    }

    method Get(k: K, i: nat) returns (r: R)
      requires Valid() && k in rows && i < |rows[k]|
      ensures r == rows[k][i]
    {
      assert Opened(this, 0);
      r := recs[k][i].v;
    }

    /** Overwrites a record. */
    method Poke(k: K, i: nat, r: R)
      requires Valid() && k in rows && i < |rows[k]|
      modifies Repr
      ensures Valid() && Repr == old(Repr) && recs == old(recs) && rows == old(rows)[k := old(rows)[k][i := r]]
    {
      assert Opened(this, 0);
      recs[k][i].v := r;
      rows := rows[k := rows[k][i := r]];
    }

    /** Puts a slice of records that are not in use under a key. */
    method PutSlice(k: K, cells: seq<Cell<R>>, ghost vals: seq<R>)
      requires Valid() && |cells| == |vals|
      requires forall i :: 0 <= i < |cells| ==> cells[i] !in Repr && cells[i].v == vals[i]
      requires forall i, j :: 0 <= i < j < |cells| ==> cells[i] != cells[j]
      modifies this
      ensures Valid() && rows == old(rows)[k := vals] && Repr == old(Repr) + set c | c in cells
    {
      assert Opened(this, 0);
      recs := recs[k := cells];
      rows := rows[k := vals];
      Repr := Repr + set c | c in cells;
    }

    /** Appends a pointer to a fresh record. */
    method Add(k: K, r: R)
      requires Valid()
      modifies Repr
      ensures Valid() && fresh(Repr - old(Repr))
      ensures rows == old(rows)[k := (if k in old(rows) then old(rows)[k] else []) + [r]]
    {
      var n := Size(k);
      if n == 0 {
        var c := new Cell(r);
        PutSlice(k, [c], [r]);
        assert (if k in old(rows) then old(rows)[k] else []) + [r] == [r];
      } else {
        Extend(k, r);
      }
    }

    method Extend(k: K, r: R)
      requires Valid() && k in rows
      modifies Repr
      ensures Valid() && fresh(Repr - old(Repr)) && rows == old(rows)[k := old(rows)[k] + [r]]
    {
      assert Opened(this, 0);
      var c := new Cell(r);
      ghost var all := Repr;
      recs := recs[k := recs[k] + [c]];
      rows := rows[k := rows[k] + [r]];
      Repr := Repr + {c};
      assert forall l, i :: l in recs && 0 <= i < |recs[l]| ==> recs[l][i] in all || (l == k && i == |recs[k]| - 1);
    }

    /** Overwrites every record of a slice. */
    method PokeAll(k: K, f: R -> R)
      requires Valid() && k in rows
      modifies Repr
      ensures Valid() && Repr == old(Repr) && rows == old(rows)[k := Mapped(old(rows)[k], f)]
    {
      assert Opened(this, 0);
      for i := 0 to |recs[k]|
        invariant Valid() && Repr == old(Repr) && recs == old(recs) && rows.Keys == old(rows).Keys
        invariant |rows[k]| == |recs[k]|
        invariant forall l :: l in rows && l != k ==> rows[l] == old(rows)[l]
        invariant forall j :: 0 <= j < |recs[k]| ==> rows[k][j] == if j < i then f(old(rows)[k][j]) else old(rows)[k][j]
      {
        var r := Get(k, i);
        Poke(k, i, f(r));
      }
      assert rows[k] == Mapped(old(rows)[k], f);
    }

    /** A new map of new slices of copied records. */
    method Copy() returns (t: Shelf<K, R>)
      requires Valid()
      ensures t.Valid() && fresh(t.Repr) && t.rows == rows
    {
      assert Opened(this, 0);
      t := new Shelf();
      var todo := recs.Keys;
      while todo != {}
        invariant todo <= recs.Keys
        invariant t.Valid() && fresh(t.Repr) && t in t.Repr
        invariant t.rows.Keys == rows.Keys - todo
        invariant forall k :: k in t.rows ==> t.rows[k] == rows[k]
      {
        var k :| k in todo;
        var cells := CopySlice(recs[k]);
        t.PutSlice(k, cells, rows[k]);
        todo := todo - {k};
      }
      assert t.rows.Keys == rows.Keys;
    }
  }
}
