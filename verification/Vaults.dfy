/** The store's key mappings, a map of slices of pointed-to records, and its
    funding requests, a map of pointed-to records. */
module Vaults {
  import opened Text
  import opened Records
  import opened HeapTables

  datatype KeyState = Current | Cooling | Retired
  datatype KeyMapping = KeyMapping(keyId: string, state: KeyState, activeFrom: int, activeTo: Option<int>)

  datatype FundingState = Requested | Approved | Settled | Rejected
  datatype Funding = Funding(wallet: Id, asset: string, amount: string, state: FundingState, batch: string)

  /** The contents of the two containers by value. */
  datatype Files = Files(keys: map<Id, seq<KeyMapping>>, fundings: map<Id, Funding>)

  const NO_FILES := Files(map[], map[])

  // ----- key mappings -----

  predicate HasCurrent(ms: seq<KeyMapping>) { exists i :: 0 <= i < |ms| && ms[i].state == Current }

  predicate CanBind(ms: seq<KeyMapping>, m: KeyMapping) { m.state == Current ==> !HasCurrent(ms) }

  function Bind(ms: seq<KeyMapping>, m: KeyMapping): seq<KeyMapping> { if CanBind(ms, m) then ms + [m] else ms }

  function Cool(m: KeyMapping, until: int): KeyMapping {
    if m.state == Current then m.(state := Cooling, activeTo := Some(until)) else m
  }

  function CoolAll(ms: seq<KeyMapping>, until: int): seq<KeyMapping> { Mapped(ms, m => Cool(m, until)) }

  function Renew(m: KeyMapping, now: int): KeyMapping { m.(state := Current, activeFrom := now, activeTo := None) }

  /** Makes the first mapping of the key current, or appends one. */
  function Promote(ms: seq<KeyMapping>, keyId: string, now: int): seq<KeyMapping> {
    if ms == [] then [KeyMapping(keyId, Current, now, None)]
    else if ms[0].keyId == keyId then [Renew(ms[0], now)] + ms[1..]
    else [ms[0]] + Promote(ms[1..], keyId, now)
  }

  function Rotate(ms: seq<KeyMapping>, keyId: string, now: int, cooling: int): seq<KeyMapping> {
    Promote(CoolAll(ms, now + cooling), keyId, now)
  }

  function Expire(m: KeyMapping, now: int): KeyMapping {
    if m.state == Cooling && m.activeTo.Some? && now > m.activeTo.value then m.(state := KeyState.Retired) else m
  }

  function ExpireAll(ms: seq<KeyMapping>, now: int): seq<KeyMapping> { Mapped(ms, m => Expire(m, now)) }

  function At<V>(m: map<Id, seq<V>>, id: Id): seq<V> { if id in m then m[id] else [] }

  /** A wallet has at most one current key. */
  predicate OneCurrent(ms: seq<KeyMapping>) {
    forall i, j :: 0 <= i < j < |ms| ==> !(ms[i].state == Current && ms[j].state == Current)
  }

  lemma {:induction false} PromotedIsOne(ms: seq<KeyMapping>, keyId: string, now: int)
    requires !HasCurrent(ms)
    ensures OneCurrent(Promote(ms, keyId, now)) && HasCurrent(Promote(ms, keyId, now))
  {
    var r := Promote(ms, keyId, now);
    if ms == [] {
      assert r[0].state == Current;
    } else if ms[0].keyId == keyId {
      assert r[0].state == Current;
      assert forall i :: 1 <= i < |r| ==> r[i] == ms[i];
    } else {
      assert !HasCurrent(ms[1..]);
      PromotedIsOne(ms[1..], keyId, now);
      var rest := Promote(ms[1..], keyId, now);
      var i :| 0 <= i < |rest| && rest[i].state == Current;
      assert r[i + 1].state == Current;
    }
  }

  /** Every operation leaves at most one current key, whatever was there before a
      rotation, and a rotation leaves exactly one. */
  lemma KeysStayOne(ms: seq<KeyMapping>, m: KeyMapping, keyId: string, now: int, cooling: int)
    ensures OneCurrent(ms) ==> OneCurrent(Bind(ms, m)) && OneCurrent(ExpireAll(ms, now))
    ensures OneCurrent(Rotate(ms, keyId, now, cooling)) && HasCurrent(Rotate(ms, keyId, now, cooling))
  {
    PromotedIsOne(CoolAll(ms, now + cooling), keyId, now);
  }

  /** Rotating renews the first mapping of the key, or appends one, and cools every
      other current mapping; nothing else changes. */
  lemma RotatesInPlace(ms: seq<KeyMapping>, keyId: string, now: int, cooling: int, i: nat)
    requires i < |ms|
    ensures var r := Rotate(ms, keyId, now, cooling);
      var first := ms[i].keyId == keyId && forall j :: 0 <= j < i ==> ms[j].keyId != keyId;
      && |r| == |ms| + (if exists j :: 0 <= j < |ms| && ms[j].keyId == keyId then 0 else 1)
      && r[i] == (if first then ms[i].(state := Current, activeFrom := now, activeTo := None)
                  else if ms[i].state == Current then ms[i].(state := Cooling, activeTo := Some(now + cooling))
                  else ms[i])
      && (|r| > |ms| ==> r[|ms|] == KeyMapping(keyId, Current, now, None))
  {
    var cs := CoolAll(ms, now + cooling);
    if exists j :: 0 <= j < |ms| && ms[j].keyId == keyId {
      var f := FirstOf(ms, keyId);
      PromoteAt(cs, keyId, now, f);
    } else {
      PromoteNew(cs, keyId, now);
    }
  }

  lemma {:induction false} FirstOf(ms: seq<KeyMapping>, keyId: string) returns (f: nat)
    requires exists j :: 0 <= j < |ms| && ms[j].keyId == keyId
    ensures f < |ms| && ms[f].keyId == keyId && forall j :: 0 <= j < f ==> ms[j].keyId != keyId
  {
    if ms[0].keyId == keyId {
      f := 0;
    } else {
      var j :| 0 <= j < |ms| && ms[j].keyId == keyId;
      assert ms[1..][j - 1].keyId == keyId;
      var g := FirstOf(ms[1..], keyId);
      f := g + 1;
    }
  }

  /** A mapping is retired exactly when it is cooling and its time is over. */
  lemma RetiresIff(keys: map<Id, seq<KeyMapping>>, now: int, id: Id, i: nat)
    requires id in keys && i < |keys[id]|
    ensures var m := keys[id][i]; var r := ExpireEach(keys, now);
      && r.Keys == keys.Keys && |r[id]| == |keys[id]|
      && r[id][i] == (if m.state == Cooling && m.activeTo.Some? && m.activeTo.value < now
                      then m.(state := KeyState.Retired) else m)
  {
  }

  // ----- funding requests -----

  predicate IsOpen(f: Funding, wallet: Id, asset: string) {
    f.wallet == wallet && f.asset == asset && f.state == Requested
  }

  predicate HasOpen(fs: map<Id, Funding>, wallet: Id, asset: string) {
    exists k :: k in fs && IsOpen(fs[k], wallet, asset)
  }

  function RequestFunding(fs: map<Id, Funding>, id: Id, f: Funding): map<Id, Funding> {
    if HasOpen(fs, f.wallet, f.asset) then fs else fs[id := f]
  }

  function WithFundingState(f: Funding, state: FundingState, batch: string): Funding {
    f.(state := state, batch := OrKeep(batch, f.batch))
  }

  function SetFundingState(fs: map<Id, Funding>, id: Id, state: FundingState, batch: string): map<Id, Funding> {
    if id in fs then fs[id := WithFundingState(fs[id], state, batch)] else fs
  }

  method FindOpen(t: Table<Id, Funding>, wallet: Id, asset: string) returns (found: bool)
    requires t.Valid()
    ensures found == HasOpen(t.rows, wallet, asset)
  {
    assert Opened(t, 0);
    var todo := t.recs.Keys;
    while todo != {}
      invariant todo <= t.recs.Keys
      invariant forall k :: k in t.rows && k !in todo ==> !IsOpen(t.rows[k], wallet, asset)
    {
      var k :| k in todo;
      var f := t.Get(k);
      if IsOpen(f, wallet, asset) {
        return true;
      }
      todo := todo - {k};
    }
    return false;
  }

  // ----- one wallet's slice -----

  method CurrentIn(s: Shelf<Id, KeyMapping>, id: Id) returns (found: bool)
    requires s.Valid()
    ensures found == HasCurrent(At(s.rows, id))
  {
    var n := s.Size(id);
    for i := 0 to n
      invariant forall j :: 0 <= j < i ==> At(s.rows, id)[j].state != Current
    {
      var m := s.Get(id, i);
      if m.state == Current {
        return true;
      }
    }
    return false;
  }

  lemma {:induction false} PromoteAt(ms: seq<KeyMapping>, keyId: string, now: int, i: nat)
    requires i < |ms| && ms[i].keyId == keyId && forall j :: 0 <= j < i ==> ms[j].keyId != keyId
    ensures Promote(ms, keyId, now) == ms[i := Renew(ms[i], now)]
  {
    if i > 0 {
      PromoteAt(ms[1..], keyId, now, i - 1);
      assert ms[i := Renew(ms[i], now)] == [ms[0]] + ms[1..][i - 1 := Renew(ms[i], now)];
    } else {
      assert ms[0 := Renew(ms[0], now)] == [Renew(ms[0], now)] + ms[1..];
    }
  }

  lemma {:induction false} PromoteNew(ms: seq<KeyMapping>, keyId: string, now: int)
    requires forall j :: 0 <= j < |ms| ==> ms[j].keyId != keyId
    ensures Promote(ms, keyId, now) == ms + [KeyMapping(keyId, Current, now, None)]
  {
    if ms != [] {
      PromoteNew(ms[1..], keyId, now);
      assert ms == [ms[0]] + ms[1..];
    }
  }

  method PromoteIn(s: Shelf<Id, KeyMapping>, id: Id, keyId: string, now: int)
    requires s.Valid()
    modifies s.Repr
    ensures s.Valid() && fresh(s.Repr - old(s.Repr))
    ensures s.rows == old(s.rows)[id := Promote(At(old(s.rows), id), keyId, now)]
  {
    var n := s.Size(id);
    for i := 0 to n
      invariant s.Valid() && s.Repr == old(s.Repr) && s.rows == old(s.rows) && n == |At(s.rows, id)|
      invariant forall j :: 0 <= j < i ==> At(s.rows, id)[j].keyId != keyId
    {
      var m := s.Get(id, i);
      if m.keyId == keyId {
        PromoteAt(s.rows[id], keyId, now, i);
        s.Poke(id, i, Renew(m, now));
        return;
      }
    }
    PromoteNew(At(s.rows, id), keyId, now);
    s.Add(id, KeyMapping(keyId, Current, now, None));
  }

  method RotateIn(s: Shelf<Id, KeyMapping>, id: Id, keyId: string, now: int, cooling: int)
    requires s.Valid()
    modifies s.Repr
    ensures s.Valid() && fresh(s.Repr - old(s.Repr))
    ensures s.rows == old(s.rows)[id := Rotate(At(old(s.rows), id), keyId, now, cooling)]
  {
    var names := s.Names();
    if id in names {
      s.PokeAll(id, m => Cool(m, now + cooling));
    }
    assert At(s.rows, id) == CoolAll(At(old(s.rows), id), now + cooling);
    PromoteIn(s, id, keyId, now);
  }

  function ExpireEach(keys: map<Id, seq<KeyMapping>>, now: int): map<Id, seq<KeyMapping>> {
    map k | k in keys :: ExpireAll(keys[k], now)
  }

  method ExpireEvery(s: Shelf<Id, KeyMapping>, now: int)
    requires s.Valid()
    modifies s.Repr
    ensures s.Valid() && s.Repr == old(s.Repr)
    ensures s.rows == ExpireEach(old(s.rows), now)
  {
    var todo := s.Names();
    while todo != {}
      invariant s.Valid() && s.Repr == old(s.Repr) && todo <= s.rows.Keys == old(s.rows).Keys
      invariant forall k :: k in s.rows ==>
        s.rows[k] == if k in todo then old(s.rows)[k] else ExpireAll(old(s.rows)[k], now)
    {
      var k :| k in todo;
      s.PokeAll(k, m => Expire(m, now));
      todo := todo - {k};
    }
  }

  // ----- the two together -----

  class Vault {
    const keys: Shelf<Id, KeyMapping>
    const fundings: Table<Id, Funding>
    ghost var files: Files
    ghost var Repr: set<object>

    ghost predicate Valid()
      reads this, Repr
    {
      this in Repr && forall n: nat {:trigger Opened(this, n)} :: Opened(this, n) ==> Inside()
    }

    ghost predicate Inside()
      reads this, Repr
    {
      && this in Repr && keys in Repr && fundings in Repr && keys.Repr <= Repr && fundings.Repr <= Repr
      && this !in keys.Repr && this !in fundings.Repr && keys.Repr !! fundings.Repr
      && keys.Valid() && fundings.Valid() && files == Files(keys.rows, fundings.rows)
    }

    constructor (k: Shelf<Id, KeyMapping>, f: Table<Id, Funding>)
      requires k.Valid() && f.Valid() && k.Repr !! f.Repr
      ensures Valid() && files == Files(k.rows, f.rows) && Repr == {this} + k.Repr + f.Repr
    {
      keys, fundings := k, f;
      files := Files(k.rows, f.rows);
      Repr := {this} + k.Repr + f.Repr;
    }

    method BindKeyMapping(id: Id, m: KeyMapping) returns (ok: bool)
      requires Valid()
      modifies Repr
      ensures Valid() && fresh(Repr - old(Repr))
      ensures var ms := if id in old(files).keys then old(files).keys[id] else [];
        && (ok <==> m.state == Current ==> forall i :: 0 <= i < |ms| ==> ms[i].state != Current)
        && files.keys == if ok then old(files).keys[id := ms + [m]] else old(files).keys
      ensures files == old(files).(keys := if ok then old(files).keys[id := Bind(At(old(files).keys, id), m)] else old(files).keys)
    {
      assert Opened(this, 0);
      if m.state == Current {
        var taken := CurrentIn(keys, id);
        if taken {
          return false;
        }
      }
      keys.Add(id, m);
      files := files.(keys := keys.rows);
      Repr := Repr + keys.Repr;
      return true;
    }

    method RotateKeyMapping(id: Id, keyId: string, now: int, cooling: int)
      requires Valid()
      modifies Repr
      ensures Valid() && fresh(Repr - old(Repr))
      ensures files == old(files).(keys := old(files).keys[id := Rotate(At(old(files).keys, id), keyId, now, cooling)])
    {
      assert Opened(this, 0);
      RotateIn(keys, id, keyId, now, cooling);
      files := files.(keys := keys.rows);
      Repr := Repr + keys.Repr;
    }

    method ExpireCooling(now: int)
      requires Valid()
      modifies Repr
      ensures Valid() && fresh(Repr - old(Repr))
      ensures files == old(files).(keys := ExpireEach(old(files).keys, now))
    {
      assert Opened(this, 0);
      ExpireEvery(keys, now);
      files := files.(keys := keys.rows);
    }

    method CreateFundingRequest(id: Id, f: Funding) returns (ok: bool)
      requires Valid()
      modifies Repr
      ensures Valid() && fresh(Repr - old(Repr))
      ensures ok <==> forall k :: k in old(files).fundings ==>
        var g := old(files).fundings[k]; !(g.wallet == f.wallet && g.asset == f.asset && g.state == Requested)
      ensures files == old(files).(fundings := RequestFunding(old(files).fundings, id, f))
    {
      assert Opened(this, 0);
      var taken := FindOpen(fundings, f.wallet, f.asset);
      if taken {
        return false;
      }
      fundings.Put(id, f);
      files := files.(fundings := fundings.rows);
      Repr := Repr + fundings.Repr;
      return true;
    }

    method UpdateFundingState(id: Id, state: FundingState, batch: string) returns (ok: bool)
      requires Valid()
      modifies Repr
      ensures Valid() && fresh(Repr - old(Repr))
      ensures ok <==> id in old(files).fundings
      ensures files == old(files).(fundings := SetFundingState(old(files).fundings, id, state, batch))
      ensures ok ==> var f := old(files).fundings[id];
        files.fundings == old(files).fundings[id := f.(state := state, batch := if batch != "" then batch else f.batch)]
    {
      assert Opened(this, 0);
      ok := PokeIfPresent(fundings, id, (f: Funding) => WithFundingState(f, state, batch));
      files := files.(fundings := fundings.rows);
    }

    /** Copies of all records, none shared with this vault. */
    method Copy() returns (v: Vault)
      requires Valid()
      ensures v.Valid() && fresh(v.Repr) && v.files == files
    {
      assert Opened(this, 0);
      var k := keys.Copy();
      var f := fundings.Copy();
      v := new Vault(k, f);
    }
  }

  method NewVault() returns (v: Vault)
    ensures v.Valid() && fresh(v.Repr) && v.files == NO_FILES
  {
    var k := new Shelf<Id, KeyMapping>();
    var f := new Table<Id, Funding>();
    v := new Vault(k, f);
  }
}
