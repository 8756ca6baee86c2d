/** The store's wallet, address and balance records and its audit outbox, each a
    container of pointed-to records. */
module Books {
  import opened Text
  import opened Records
  import opened HeapTables

  /** The contents of the four containers by value. */
  datatype Pages = Pages(wallets: map<Id, Wallet>, addresses: map<Id, Address>,
                         balances: map<BalanceKey, Balance>, outbox: seq<AuditRow>)

  const NO_PAGES := Pages(map[], map[], map[], [])

  // ----- scans over one container -----

  method FindActive(t: Table<Id, Address>, wallet: Id) returns (found: bool)
    requires t.Valid()
    ensures found == HasActive(t.rows, wallet)
  {
    assert Opened(t, 0);
    var todo := t.recs.Keys;
    while todo != {}
      invariant todo <= t.recs.Keys
      invariant forall k :: k in t.rows && k !in todo ==> !(t.rows[k].wallet == wallet && t.rows[k].state == Active)
    {
      var k :| k in todo;
      var a := t.Get(k);
      if a.wallet == wallet && a.state == Active {
        return true;
      }
      todo := todo - {k};
    }
    return false;
  }

  method InsertAddressIn(t: Table<Id, Address>, id: Id, a: Address) returns (ok: bool)
    requires t.Valid()
    modifies t.Repr
    ensures t.Valid() && fresh(t.Repr - old(t.Repr))
    ensures ok <==> CanInsertAddress(old(t.rows), id, a)
    ensures t.rows == InsertAddress(old(t.rows), id, a)
  {
    assert Opened(t, 0);
    if id in t.recs {
      return false;
    }
    if a.state == Active {
      var taken := FindActive(t, a.wallet);
      if taken {
        return false;
      }
    }
    t.Put(id, a);
    return true;
  }

  method AppendIn(log: Log<AuditRow>, row: AuditRow) returns (ok: bool)
    requires log.Valid()
    modifies log.Repr
    ensures log.Valid() && fresh(log.Repr - old(log.Repr))
    ensures ok <==> FreshEvent(old(log.rows), row.eventId)
    ensures log.rows == Append(old(log.rows), row)
  {
    assert Opened(log, 0);
    for i := 0 to |log.recs|
      invariant log.rows == old(log.rows) && log.Repr == old(log.Repr) && log.Valid()
      invariant forall j :: 0 <= j < i ==> log.rows[j].eventId != row.eventId
    {
      var e := log.Get(i);
      if e.eventId == row.eventId {
        return false;
      }
    }
    log.Add(row);
    return true;
  }

  /** Marking stops at the first row with the id. */
  lemma {:induction false} MarkDeliveredAt(rows: seq<AuditRow>, id: Id, i: nat)
    requires i < |rows| && rows[i].id == id && forall j :: 0 <= j < i ==> rows[j].id != id
    ensures MarkDelivered(rows, id) == rows[i := rows[i].(delivered := true, attempts := rows[i].attempts + 1)]
  {
    if i > 0 {
      MarkDeliveredAt(rows[1..], id, i - 1);
      assert rows[1..][i - 1 := Delivered(rows[i])] == rows[i := Delivered(rows[i])][1..];
    }
  }

  lemma {:induction false} MarkDeliveredNone(rows: seq<AuditRow>, id: Id)
    requires forall j :: 0 <= j < |rows| ==> rows[j].id != id
    ensures MarkDelivered(rows, id) == rows
  {
    if rows != [] {
      MarkDeliveredNone(rows[1..], id);
    }
  }

  method MarkIn(log: Log<AuditRow>, id: Id) returns (ok: bool)
    requires log.Valid()
    modifies log.Repr
    ensures log.Valid() && log.Repr == old(log.Repr)
    ensures ok <==> HasRow(old(log.rows), id)
    ensures log.rows == MarkDelivered(old(log.rows), id)
  {
    assert Opened(log, 0);
    for i := 0 to |log.recs|
      invariant log.rows == old(log.rows) && log.Repr == old(log.Repr) && log.Valid()
      invariant forall j :: 0 <= j < i ==> log.rows[j].id != id
    {
      var e := log.Get(i);
      if e.id == id {
        MarkDeliveredAt(log.rows, id, i);
        log.Poke(i, Delivered(e));
        return true;
      }
    }
    MarkDeliveredNone(log.rows, id);
    return false;
  }

  // ----- the four together -----

  class Book {
    const wallets: Table<Id, Wallet>
    const addresses: Table<Id, Address>
    const balances: Table<BalanceKey, Balance>
    const outbox: Log<AuditRow>
    ghost var pages: Pages
    ghost var Repr: set<object>

    ghost predicate Valid()
      reads this, Repr
    {
      this in Repr && forall n: nat {:trigger Opened(this, n)} :: Opened(this, n) ==> Inside()
    }

    /** The containers are the book's own and share no record. */
    ghost predicate Inside()
      reads this, Repr
    {
      && this in Repr && wallets in Repr && addresses in Repr && balances in Repr && outbox in Repr
      && wallets.Repr <= Repr && addresses.Repr <= Repr && balances.Repr <= Repr && outbox.Repr <= Repr
      && this !in wallets.Repr && this !in addresses.Repr && this !in balances.Repr && this !in outbox.Repr
      && wallets.Repr !! addresses.Repr && wallets.Repr !! balances.Repr && wallets.Repr !! outbox.Repr
      && addresses.Repr !! balances.Repr && addresses.Repr !! outbox.Repr && balances.Repr !! outbox.Repr
      && wallets.Valid() && addresses.Valid() && balances.Valid() && outbox.Valid()
      && pages == Pages(wallets.rows, addresses.rows, balances.rows, outbox.rows)
    }

    constructor (w: Table<Id, Wallet>, a: Table<Id, Address>, b: Table<BalanceKey, Balance>, o: Log<AuditRow>)
      requires w.Valid() && a.Valid() && b.Valid() && o.Valid()
      requires w.Repr !! a.Repr && w.Repr !! b.Repr && w.Repr !! o.Repr
      requires a.Repr !! b.Repr && a.Repr !! o.Repr && b.Repr !! o.Repr
      ensures Valid() && pages == Pages(w.rows, a.rows, b.rows, o.rows)
      ensures Repr == {this} + w.Repr + a.Repr + b.Repr + o.Repr
    {
      wallets, addresses, balances, outbox := w, a, b, o;
      pages := Pages(w.rows, a.rows, b.rows, o.rows);
      Repr := {this} + w.Repr + a.Repr + b.Repr + o.Repr;
    }

    method CreateWallet(id: Id, w: Wallet) returns (ok: bool)
      requires Valid()
      modifies Repr
      ensures Valid() && fresh(Repr - old(Repr))
      ensures ok <==> id !in old(pages).wallets
      ensures pages == old(pages).(wallets := if ok then old(pages).wallets[id := w] else old(pages).wallets)
    {
      assert Opened(this, 0);
      ok := PutIfAbsent(wallets, id, w);
      pages := pages.(wallets := wallets.rows);
      Repr := Repr + wallets.Repr;
    }

    method GetWallet(id: Id) returns (r: Option<Wallet>)
      requires Valid()
      ensures r == if id in pages.wallets then Some(pages.wallets[id]) else None
    {
      assert Opened(this, 0);
      r := Lookup(wallets, id);
    }

    method UpdateWalletState(id: Id, state: WalletState) returns (ok: bool)
      requires Valid()
      modifies Repr
      ensures Valid() && Repr == old(Repr)
      ensures ok <==> id in old(pages).wallets
      ensures pages == old(pages).(wallets := SetWalletState(old(pages).wallets, id, state))
    {
      assert Opened(this, 0);
      ok := PokeIfPresent(wallets, id, (w: Wallet) => w.(state := state));
      pages := pages.(wallets := wallets.rows);
    }

    method InsertAddress(id: Id, a: Address) returns (ok: bool)
      requires Valid()
      modifies Repr
      ensures Valid() && fresh(Repr - old(Repr))
      ensures ok <==> CanInsertAddress(old(pages).addresses, id, a)
      ensures pages == old(pages).(addresses := Records.InsertAddress(old(pages).addresses, id, a))
    {
      assert Opened(this, 0);
      ok := InsertAddressIn(addresses, id, a);
      pages := pages.(addresses := addresses.rows);
      Repr := Repr + addresses.Repr;
    }

    method DeprecateAddress(id: Id) returns (ok: bool)
      requires Valid()
      modifies Repr
      ensures Valid() && Repr == old(Repr)
      ensures ok <==> id in old(pages).addresses
      ensures pages == old(pages).(addresses := Records.DeprecateAddress(old(pages).addresses, id))
    {
      assert Opened(this, 0);
      ok := PokeIfPresent(addresses, id, (a: Address) => a.(state := Deprecated));
      pages := pages.(addresses := addresses.rows);
    }

    method CountReceive(id: Id) returns (ok: bool)
      requires Valid()
      modifies Repr
      ensures Valid() && Repr == old(Repr)
      ensures ok <==> id in old(pages).addresses
      ensures pages == old(pages).(addresses := Records.CountReceive(old(pages).addresses, id))
    {
      assert Opened(this, 0);
      ok := PokeIfPresent(addresses, id, (a: Address) => a.(receives := a.receives + 1));
      pages := pages.(addresses := addresses.rows);
    }

    method UpsertBalance(k: BalanceKey, b: Balance)
      requires Valid()
      modifies Repr
      ensures Valid() && fresh(Repr - old(Repr))
      ensures pages == old(pages).(balances := old(pages).balances[k := b])
    {
      assert Opened(this, 0);
      balances.Put(k, b);
      pages := pages.(balances := balances.rows);
      Repr := Repr + balances.Repr;
    }

    method GetBalance(k: BalanceKey) returns (r: Option<Balance>)
      requires Valid()
      ensures r == if k in pages.balances then Some(pages.balances[k]) else None
    {
      assert Opened(this, 0);
      r := Lookup(balances, k);
    }

    /** The outbox entries, copied out. */
    method Entries() returns (rows: seq<AuditRow>)
      requires Valid()
      ensures rows == pages.outbox
    {
      assert Opened(this, 0);
      rows := outbox.Values();
    }

    method Append(row: AuditRow) returns (ok: bool)
      requires Valid()
      modifies Repr
      ensures Valid() && fresh(Repr - old(Repr))
      ensures ok <==> FreshEvent(old(pages).outbox, row.eventId)
      ensures pages == old(pages).(outbox := Records.Append(old(pages).outbox, row))
    {
      assert Opened(this, 0);
      ok := AppendIn(outbox, row);
      pages := pages.(outbox := outbox.rows);
      Repr := Repr + outbox.Repr;
    }

    method MarkDelivered(id: Id) returns (ok: bool)
      requires Valid()
      modifies Repr
      ensures Valid() && Repr == old(Repr)
      ensures ok <==> HasRow(old(pages).outbox, id)
      ensures pages == old(pages).(outbox := Records.MarkDelivered(old(pages).outbox, id))
    {
      assert Opened(this, 0);
      ok := MarkIn(outbox, id);
      pages := pages.(outbox := outbox.rows);
    }

    method CopyRegisters() returns (w: Table<Id, Wallet>, a: Table<Id, Address>)
      requires Valid()
      ensures w.Valid() && a.Valid() && fresh(w.Repr) && fresh(a.Repr) && w.Repr !! a.Repr
      ensures w.rows == wallets.rows && a.rows == addresses.rows
    {
      assert Opened(this, 0);
      w := wallets.Copy();
      a := addresses.Copy();
    }

    method CopyEntries() returns (b: Table<BalanceKey, Balance>, o: Log<AuditRow>)
      requires Valid()
      ensures b.Valid() && o.Valid() && fresh(b.Repr) && fresh(o.Repr) && b.Repr !! o.Repr
      ensures b.rows == balances.rows && o.rows == outbox.rows
    {
      assert Opened(this, 0);
      b := balances.Copy();
      o := outbox.Copy();
    }

    /** A book of copied records that shares none with this one. */
    method Copy() returns (b: Book)
      requires Valid()
      ensures b.Valid() && fresh(b.Repr) && b.pages == pages
    {
      assert Opened(this, 0);
      var w, a := CopyRegisters();
      var l, o := CopyEntries();
      b := new Book(w, a, l, o);
    }
  }

  method NewRegisters() returns (w: Table<Id, Wallet>, a: Table<Id, Address>)
    ensures w.Valid() && a.Valid() && fresh(w.Repr) && fresh(a.Repr) && w.Repr !! a.Repr
    ensures w.rows == map[] && a.rows == map[]
  {
    w := new Table<Id, Wallet>();
    a := new Table<Id, Address>();
  }

  method NewEntries() returns (b: Table<BalanceKey, Balance>, o: Log<AuditRow>)
    ensures b.Valid() && o.Valid() && fresh(b.Repr) && fresh(o.Repr) && b.Repr !! o.Repr
    ensures b.rows == map[] && o.rows == []
  {
    b := new Table<BalanceKey, Balance>();
    o := new Log<AuditRow>();
  }

  method NewBook() returns (b: Book)
    ensures b.Valid() && fresh(b.Repr) && b.pages == NO_PAGES
  {
    var w, a := NewRegisters();
    var l, o := NewEntries();
    b := new Book(w, a, l, o);
  }
}
