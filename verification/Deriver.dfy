/** Address derivation behind a cache that the EVM and the Bitcoin derivers
    share, with entries that expire and a cache that may fail. */
module Deriver {
  import opened Text
  import opened Records

  // ----- the cache -----

  datatype Entry = Entry(value: string, expires: int)

  /** An entry is served until its expiry time has passed. */
  predicate Live(data: map<string, Entry>, key: string, now: int) {
    key in data && now <= data[key].expires
  }

  class MemCache {
    var data: map<string, Entry>

    constructor ()
      ensures data == map[]
    {
      data := map[];
    }

    /** A miss removes whatever expired entry was there. */
    method Get(key: string, now: int) returns (r: Option<string>)
      modifies this
      ensures r.Some? <==> key in old(data) && now <= old(data)[key].expires
      ensures r.Some? ==> r.value == old(data)[key].value && data == old(data)
      ensures r.None? ==> data == old(data) - {key}
    {
      if key !in data || now > data[key].expires {
        data := data - {key};
        return None;
      }
      return Some(data[key].value);
    }

    method Set(key: string, value: string, ttl: int, now: int)
      modifies this
      ensures data == old(data)[key := Entry(value, now + ttl)]
    {
      data := data[key := Entry(value, now + ttl)];
    }

    method Del(keys: seq<string>)
      modifies this
      ensures data == map k | k in old(data) && k !in keys :: old(data)[k]
    {
      for i := 0 to |keys|
        invariant data == map k | k in old(data) && k !in keys[..i] :: old(data)[k]
      {
        data := data - {keys[i]};
        assert keys[..i + 1] == keys[..i] + [keys[i]];
      }
      assert keys[..|keys|] == keys;
    }
  }

  // ----- keys -----

  /** What a deriver can be asked for, past its argument checks. */
  datatype Request = EvmAt(xpub: string, index: nat) | BtcAt(xpub: string, change: nat, index: nat)

  function KeyOf(r: Request): string {
    match r
    case EvmAt(xpub, index) => "deriv:evm:" + (xpub + ":" + Itoa(index))
    case BtcAt(xpub, change, index) => "deriv:btc:" + ((xpub + ":" + Itoa(change)) + ":" + Itoa(index))
  }

  lemma DigitsHoldNoColon(n: nat)
    ensures ':' !in Itoa(n)
  {
    assert forall i :: 0 <= i < |Itoa(n)| ==> IsDigit(Itoa(n)[i]);
  }

  lemma StripPrefix(p: string, a: string, b: string)
    requires p + a == p + b
    ensures a == b
  {
    assert a == (p + a)[|p|..] && b == (p + b)[|p|..];
  }

  lemma EvmKeyInjective(a: Request, b: Request)
    requires a.EvmAt? && b.EvmAt? && KeyOf(a) == KeyOf(b)
    ensures a == b
  {
    StripPrefix("deriv:evm:", a.xpub + ":" + Itoa(a.index), b.xpub + ":" + Itoa(b.index));
    DigitsHoldNoColon(a.index);
    DigitsHoldNoColon(b.index);
    JoinLastInjective(a.xpub, Itoa(a.index), b.xpub, Itoa(b.index), ':');
    ItoaInjective(a.index, b.index);
  }

  lemma BtcKeyInjective(a: Request, b: Request)
    requires a.BtcAt? && b.BtcAt? && KeyOf(a) == KeyOf(b)
    ensures a == b
  {
    var pa, pb := a.xpub + ":" + Itoa(a.change), b.xpub + ":" + Itoa(b.change);
    StripPrefix("deriv:btc:", pa + ":" + Itoa(a.index), pb + ":" + Itoa(b.index));
    DigitsHoldNoColon(a.index);
    DigitsHoldNoColon(b.index);
    JoinLastInjective(pa, Itoa(a.index), pb, Itoa(b.index), ':');
    ItoaInjective(a.index, b.index);
    DigitsHoldNoColon(a.change);
    DigitsHoldNoColon(b.change);
    JoinLastInjective(a.xpub, Itoa(a.change), b.xpub, Itoa(b.change), ':');
    ItoaInjective(a.change, b.change);
  }

  /** Two requests share a cache key only when they are the same request,
      whatever characters the extended keys hold. */
  lemma KeyInjective(a: Request, b: Request)
    requires KeyOf(a) == KeyOf(b)
    ensures a == b
  {
    assert KeyOf(a)[6] == (if a.EvmAt? then 'e' else 'b');
    assert KeyOf(b)[6] == (if b.EvmAt? then 'e' else 'b');
    if a.EvmAt? {
      EvmKeyInjective(a, b);
    } else {
      BtcKeyInjective(a, b);
    }
  }

  // ----- derivation -----

  /** An address, or nothing when the derivation fails. */
  type Derivation = Request -> Option<string>

  datatype Result = Derived(address: string, path: string, index: int, change: int) | Refused

  function EvmPath(index: nat): string { "m/44'/60'/0'/0/" + Itoa(index) }

  function BtcPath(change: nat, index: nat): string { "m/84'/0'/0'/" + Itoa(change) + "/" + Itoa(index) }

  function Answer(r: Request, address: Option<string>): Result {
    match address
    case None => Refused
    case Some(a) =>
      match r
      case EvmAt(_, index) => Derived(a, EvmPath(index), index, 0)
      case BtcAt(_, change, index) => Derived(a, BtcPath(change, index), index, change)
  }

  /** The request a call amounts to, when its arguments are acceptable. */
  function Accept(evm: bool, xpub: string, chain: Chain, index: int, change: int): Option<Request> {
    if index < 0 then None
    else if evm then if IsEvm(chain) && change == 0 then Some(EvmAt(xpub, index)) else None
    else if chain == Bitcoin && (change == 0 || change == 1) then Some(BtcAt(xpub, change, index))
    else None
  }

  /** Derivation without a cache. */
  function Uncached(derive: Derivation, evm: bool, xpub: string, chain: Chain, index: int, change: int): Result {
    match Accept(evm, xpub, chain, index, change)
    case None => Refused
    case Some(r) => Answer(r, derive(r))
  }

  /** A call is answered exactly when its arguments suit the deriver and the key
      derives; the answer says the index and the change it was asked for, and the
      path spells them. */
  lemma AnsweredAsAsked(derive: Derivation, xpub: string, chain: Chain, index: int, change: int)
    ensures Uncached(derive, true, xpub, chain, index, change)
         == if chain in {Ethereum, Polygon, Arbitrum, Base, Optimism} && change == 0 && index >= 0
               && derive(EvmAt(xpub, index)).Some?
            then Derived(derive(EvmAt(xpub, index)).value, "m/44'/60'/0'/0/" + Itoa(index), index, change) else Refused
    ensures Uncached(derive, false, xpub, chain, index, change)
         == if chain == Bitcoin && 0 <= change <= 1 && index >= 0 && derive(BtcAt(xpub, change, index)).Some?
            then Derived(derive(BtcAt(xpub, change, index)).value, "m/84'/0'/0'/" + Itoa(change) + "/" + Itoa(index), index, change)
            else Refused
  {
  }

  /** Every cached value is what deriving that key's request gives. */
  ghost predicate Agrees(data: map<string, Entry>, derive: Derivation) {
    forall r: Request :: KeyOf(r) in data ==> derive(r) == Some(data[KeyOf(r)].value)
  }

  lemma SetKeepsAgreement(data: map<string, Entry>, derive: Derivation, r: Request, expires: int)
    requires Agrees(data, derive) && derive(r).Some?
    ensures Agrees(data[KeyOf(r) := Entry(derive(r).value, expires)], derive)
  {
    forall q: Request | KeyOf(q) == KeyOf(r) ensures q == r { KeyInjective(q, r); }
  }

  // ----- whole histories -----

  /** Requests by either deriver and deletions, at any clock readings. */
  datatype Event =
    | Ask(request: Request, now: int, ttl: int, getFails: bool, setFails: bool)
    | Delete(keys: seq<string>)

  function Serve(data: map<string, Entry>, derive: Derivation, e: Event): (r: (map<string, Entry>, Option<string>)) {
    match e
    case Delete(keys) => (map k | k in data && k !in keys :: data[k], None)
    case Ask(q, now, ttl, getFails, setFails) =>
      if !getFails && Live(data, KeyOf(q), now) then (data, Some(data[KeyOf(q)].value))
      else
        var kept := if getFails then data else data - {KeyOf(q)};
        match derive(q)
        case None => (kept, None)
        case Some(a) => (if setFails then kept else kept[KeyOf(q) := Entry(a, now + ttl)], Some(a))
  }

  /** Looks in the cache, derives on a miss or a cache error, and stores what it
      derived; the answer is the uncached one and the cache stays right. */
  method DeriveAt(cache: MemCache, derive: Derivation, evm: bool, xpub: string, chain: Chain, index: int, change: int,
                  ttl: int, now: int, getFails: bool, setFails: bool) returns (r: Result)
    requires Agrees(cache.data, derive)
    modifies cache
    ensures Agrees(cache.data, derive)
    ensures r == Uncached(derive, evm, xpub, chain, index, change)
    ensures var q := Accept(evm, xpub, chain, index, change);
      cache.data == if q.None? then old(cache.data)
                    else Serve(old(cache.data), derive, Ask(q.value, now, ttl, getFails, setFails)).0
  {
    var asked := Accept(evm, xpub, chain, index, change);
    if asked.None? {
      return Refused;
    }
    var q := asked.value;
    if !getFails {
      var hit := cache.Get(KeyOf(q), now);
      if hit.Some? {
        return Answer(q, hit);
      }
    }
    var address := derive(q);
    if address.None? {
      return Refused;
    }
    if !setFails {
      SetKeepsAgreement(cache.data, derive, q, now + ttl);
      cache.Set(KeyOf(q), address.value, ttl, now);
    }
    return Answer(q, address);
  }

  function Answers(data: map<string, Entry>, derive: Derivation, history: seq<Event>): (r: seq<Option<string>>)
    ensures |r| == |history|
    decreases |history|
  {
    if history == [] then []
    else
      var (next, a) := Serve(data, derive, history[0]);
      [a] + Answers(next, derive, history[1..])
  }

  lemma ServeIsRight(data: map<string, Entry>, derive: Derivation, e: Event)
    requires Agrees(data, derive)
    ensures Agrees(Serve(data, derive, e).0, derive)
    ensures e.Ask? ==> Serve(data, derive, e).1 == derive(e.request)
  {
    if e.Ask? && derive(e.request).Some? {
      SetKeepsAgreement(data, derive, e.request, e.now + e.ttl);
      SetKeepsAgreement(data - {KeyOf(e.request)}, derive, e.request, e.now + e.ttl);
    }
  }

  /** In every history each request is answered as if there were no cache. */
  lemma {:induction false} CacheIsTransparent(data: map<string, Entry>, derive: Derivation, history: seq<Event>)
    requires Agrees(data, derive)
    ensures forall i :: 0 <= i < |history| && history[i].Ask? ==>
              Answers(data, derive, history)[i] == derive(history[i].request)
    decreases |history|
  {
    if history != [] {
      ServeIsRight(data, derive, history[0]);
      CacheIsTransparent(Serve(data, derive, history[0]).0, derive, history[1..]);
    }
  }
}
