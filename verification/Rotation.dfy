/** Receive-address derivation and rotation: double-checked locking with a
    per-wallet lock, callers interleaving at every store and lock operation. */
module Rotation {
  import opened Text
  import opened Records
  import opened MemLock

  const RETRIES: nat := 20

  /** Where a caller is. `Peeking` has not looked yet; `Contending` and
      `BusyCheck` are the spin loop of a first derivation; `Grabbing` is the one
      attempt of a rotation. From `Rechecking` to `Releasing` the lock is held. */
  datatype Caller =
    | Idle
    | Peeking(wallet: Id, force: bool)
    | Contending(wallet: Id, attempt: nat)
    | BusyCheck(wallet: Id, attempt: nat)
    | Grabbing(wallet: Id, stale: Option<Id>)
    | Rechecking(wallet: Id, token: string)
    | Deprecating(wallet: Id, token: string, target: Id)
    | Deriving(wallet: Id, token: string)
    | Inserting(wallet: Id, token: string)
    | Releasing(wallet: Id, token: string, result: Option<Id>)
    | Done(wallet: Id, result: Option<Id>)

  /** `locks` holds the token of each locked wallet. */
  datatype World = World(addresses: map<Id, Address>, locks: map<Id, string>, callers: map<nat, Caller>)

  function At(w: World, c: nat): Caller { if c in w.callers then w.callers[c] else Idle }

  function Move(w: World, c: nat, to: Caller): World { w.(callers := w.callers[c := to]) }

  predicate IsActive(w: World, wallet: Id, id: Id) {
    id in w.addresses && w.addresses[id].wallet == wallet && w.addresses[id].state == Active
  }

  /** What looking for the wallet's active address can answer. */
  predicate Answers(w: World, wallet: Id, found: Option<Id>) {
    match found
    case Some(id) => IsActive(w, wallet, id)
    case None => !HasActive(w.addresses, wallet)
  }

  datatype Step =
    | Call(c: nat, wallet: Id, force: bool)
    | Peek(c: nat, found: Option<Id>, rotate: bool)
    | Acquire(c: nat, token: string)
    | CheckBusy(c: nat, found: Option<Id>)
    | Recheck(c: nat, found: Option<Id>)
    | Deprecate(c: nat)
    | Derive(c: nat, ok: bool, drop: Option<Id>)
    | Insert(c: nat, id: Id, row: Address)
    | Release(c: nat)

  predicate Enabled(w: World, s: Step) {
    var me := At(w, s.c);
    match s
    case Call(c, wallet, force) => me.Idle? || me.Done?
    case Peek(c, found, rotate) => me.Peeking? && Answers(w, me.wallet, found)
    case Acquire(c, token) => me.Contending? || me.Grabbing?
    case CheckBusy(c, found) => me.BusyCheck? && Answers(w, me.wallet, found)
    case Recheck(c, found) => me.Rechecking? && Answers(w, me.wallet, found)
    case Deprecate(c) => me.Deprecating?
    case Derive(c, ok, drop) =>
      me.Deriving? && (drop.Some? ==> drop.value in w.addresses && w.addresses[drop.value].wallet == me.wallet)
    case Insert(c, id, row) => me.Inserting? && row.wallet == me.wallet && row.state == Active
    case Release(c) => me.Releasing?
  }

  /** One store or lock operation. `drop` is the old row a Solana derivation
      deprecates first. */
  function Next(w: World, s: Step): World
    requires Enabled(w, s)
  {
    var me := At(w, s.c);
    match s
    case Call(c, wallet, force) => Move(w, c, Peeking(wallet, force))
    case Peek(c, found, rotate) =>
      if me.force then Move(w, c, Grabbing(me.wallet, found))
      else if found.None? then Move(w, c, Contending(me.wallet, 0))
      else if rotate then Move(w, c, Grabbing(me.wallet, found))
      else Move(w, c, Done(me.wallet, found))
    case Acquire(c, token) =>
      if me.wallet in w.locks then
        Move(w, c, if me.Contending? then BusyCheck(me.wallet, me.attempt) else Done(me.wallet, None))
      else
        Move(w.(locks := Acquired(w.locks, me.wallet, token)), c,
             if me.Contending? then Rechecking(me.wallet, token)
             else if me.stale.Some? then Deprecating(me.wallet, token, me.stale.value)
             else Deriving(me.wallet, token))
    case CheckBusy(c, found) =>
      Move(w, c, if found.Some? then Done(me.wallet, found)
                 else if me.attempt + 1 < RETRIES then Contending(me.wallet, me.attempt + 1)
                 else Done(me.wallet, None))
    case Recheck(c, found) =>
      Move(w, c, if found.Some? then Releasing(me.wallet, me.token, found) else Deriving(me.wallet, me.token))
    case Deprecate(c) =>
      Move(w.(addresses := DeprecateAddress(w.addresses, me.target)), c, Deriving(me.wallet, me.token))
    case Derive(c, ok, drop) =>
      var a := if drop.Some? then DeprecateAddress(w.addresses, drop.value) else w.addresses;
      Move(w.(addresses := a), c, if ok then Inserting(me.wallet, me.token) else Releasing(me.wallet, me.token, None))
    case Insert(c, id, row) =>
      Move(w.(addresses := InsertAddress(w.addresses, id, row)), c,
           Releasing(me.wallet, me.token, if CanInsertAddress(w.addresses, id, row) then Some(id) else None))
    case Release(c) =>
      Move(w.(locks := Released(w.locks, me.wallet, me.token)), c, Done(me.wallet, me.result))
  }

  predicate IsRun(w: World, steps: seq<Step>)
    decreases |steps|
  {
    steps == [] || (Enabled(w, steps[0]) && IsRun(Next(w, steps[0]), steps[1..]))
  }

  function Run(w: World, steps: seq<Step>): World
    requires IsRun(w, steps)
    decreases |steps|
  {
    if steps == [] then w else Run(Next(w, steps[0]), steps[1..])
  }

  // ----- the lock excludes -----

  predicate Holds(m: Caller) {
    m.Rechecking? || m.Deprecating? || m.Deriving? || m.Inserting? || m.Releasing?
  }

  /** Holders of a wallet's lock are unique and hold the stored token; the address
      a rotation read belongs to its wallet. */
  ghost predicate LockInv(w: World) {
    && (forall c :: c in w.callers && Holds(w.callers[c]) ==>
          w.callers[c].wallet in w.locks && w.locks[w.callers[c].wallet] == w.callers[c].token)
    && (forall b, c :: b in w.callers && c in w.callers && b != c && Holds(w.callers[b]) && Holds(w.callers[c]) ==>
          w.callers[b].wallet != w.callers[c].wallet)
    && (forall c :: c in w.callers && w.callers[c].Grabbing? && w.callers[c].stale.Some? ==>
          w.callers[c].stale.value in w.addresses
          && w.addresses[w.callers[c].stale.value].wallet == w.callers[c].wallet)
    && (forall c :: c in w.callers && w.callers[c].Deprecating? ==>
          w.callers[c].target in w.addresses && w.addresses[w.callers[c].target].wallet == w.callers[c].wallet)
  }

  /** Every wallet has at most one active address. */
  ghost predicate OneActive(w: World) {
    forall i, j :: i in w.addresses && j in w.addresses && i != j
      && w.addresses[i].state == Active && w.addresses[j].state == Active
      ==> w.addresses[i].wallet != w.addresses[j].wallet
  }

  lemma AcquireKeepsLock(w: World, c: nat, token: string)
    requires LockInv(w) && Enabled(w, Acquire(c, token))
    ensures LockInv(Next(w, Acquire(c, token)))
  {
    var me, v := At(w, c), Next(w, Acquire(c, token));
    assert c in w.callers && w.callers[c] == me;
    if me.wallet in w.locks {
      assert !Holds(v.callers[c]) && !v.callers[c].Deprecating? && !v.callers[c].Grabbing?;
    } else {
      assert forall b :: b in w.callers && Holds(w.callers[b]) ==> w.callers[b].wallet != me.wallet;
    }
  }

  lemma ReleaseKeepsLock(w: World, c: nat)
    requires LockInv(w) && Enabled(w, Release(c))
    ensures LockInv(Next(w, Release(c)))
  {
  }

  lemma WriteKeepsLock(w: World, s: Step)
    requires LockInv(w) && Enabled(w, s) && (s.Deprecate? || s.Derive? || s.Insert?)
    ensures LockInv(Next(w, s))
  {
  }

  /** A caller that only changes its own place keeps the lock it had, if any. */
  lemma MoveKeepsLock(w: World, c: nat, to: Caller)
    requires LockInv(w) && !to.Deprecating?
    requires Holds(to) ==> Holds(At(w, c)) && At(w, c).wallet == to.wallet && At(w, c).token == to.token
    requires to.Grabbing? && to.stale.Some? ==> IsActive(w, to.wallet, to.stale.value)
    ensures LockInv(Move(w, c, to))
  {
  }

  lemma StepKeepsLock(w: World, s: Step)
    requires LockInv(w) && Enabled(w, s)
    ensures LockInv(Next(w, s))
  {
    match s
    case Acquire(c, token) => AcquireKeepsLock(w, c, token);
    case Release(c) => ReleaseKeepsLock(w, c);
    case Call(c, wallet, force) => MoveKeepsLock(w, c, Peeking(wallet, force));
    case Peek(c, _, _) => MoveKeepsLock(w, c, Next(w, s).callers[c]);
    case CheckBusy(c, _) => MoveKeepsLock(w, c, Next(w, s).callers[c]);
    case Recheck(c, _) => MoveKeepsLock(w, c, Next(w, s).callers[c]);
    case _ => WriteKeepsLock(w, s);
  }

  lemma StepKeepsOneActive(w: World, s: Step)
    requires OneActive(w) && Enabled(w, s)
    ensures OneActive(Next(w, s))
  {
  }

  /** While one caller holds a wallet's lock, no step of another caller touches
      that wallet's address rows. */
  lemma LockedRowsStay(w: World, s: Step, c: nat, id: Id)
    requires LockInv(w) && Enabled(w, s)
    requires c in w.callers && Holds(w.callers[c]) && c != s.c
    ensures var wallet := w.callers[c].wallet;
            var v := Next(w, s);
            (id in v.addresses && v.addresses[id].wallet == wallet) ==> id in w.addresses && w.addresses[id] == v.addresses[id]
    ensures var wallet := w.callers[c].wallet;
            (id in w.addresses && w.addresses[id].wallet == wallet) ==>
              id in Next(w, s).addresses && w.addresses[id] == Next(w, s).addresses[id]
  {
  }

  lemma {:induction false} RunKeeps(w: World, steps: seq<Step>)
    requires LockInv(w) && OneActive(w) && IsRun(w, steps)
    ensures LockInv(Run(w, steps)) && OneActive(Run(w, steps))
    decreases |steps|
  {
    if steps != [] {
      StepKeepsLock(w, steps[0]);
      StepKeepsOneActive(w, steps[0]);
      RunKeeps(Next(w, steps[0]), steps[1..]);
    }
  }

  // ----- first derivation without rotation -----

  /** Nobody forces a rotation and no address has aged. */
  predicate NoRotation(s: Step) {
    match s
    case Call(c, wallet, force) => !force
    case Peek(c, found, rotate) => !rotate
    case _ => true
  }

  predicate IsPlainRun(w: World, steps: seq<Step>)
    decreases |steps|
  {
    steps == [] || (NoRotation(steps[0]) && Enabled(w, steps[0]) && IsPlainRun(Next(w, steps[0]), steps[1..]))
  }

  predicate Returned(m: Caller, id: Id) {
    (m.Done? || m.Releasing?) && m.result == Some(id)
  }

  predicate OfWallet(w: World, wallet: Id, id: Id) { id in w.addresses && w.addresses[id].wallet == wallet }

  /** What holds of one caller of the wallet: it is not rotating; past the second
      check it found no address; an answer it has is an address of the wallet. */
  ghost predicate CallerOk(w: World, wallet: Id, m: Caller) {
    && !m.Grabbing? && !m.Deprecating?
    && (m.Peeking? ==> !m.force)
    && (m.Deriving? || m.Inserting? ==> forall id :: !OfWallet(w, wallet, id))
    && (forall id :: Returned(m, id) ==> OfWallet(w, wallet, id))
  }

  /** The wallet has one address at most, and it is active. */
  ghost predicate FirstRows(w: World, wallet: Id) {
    && (forall i, j :: OfWallet(w, wallet, i) && OfWallet(w, wallet, j) ==> i == j)
    && (forall i :: OfWallet(w, wallet, i) ==> w.addresses[i].state == Active)
  }

  ghost predicate FirstInv(w: World, wallet: Id) {
    && FirstRows(w, wallet)
    && (forall c :: c in w.callers && w.callers[c] != Idle && w.callers[c].wallet == wallet ==>
          CallerOk(w, wallet, w.callers[c]))
  }

  lemma StepKeepsRows(w: World, s: Step, wallet: Id)
    requires LockInv(w) && FirstInv(w, wallet) && Enabled(w, s)
    ensures FirstRows(Next(w, s), wallet)
    ensures forall id :: OfWallet(w, wallet, id) ==> OfWallet(Next(w, s), wallet, id)
    ensures (exists id :: OfWallet(Next(w, s), wallet, id) && !OfWallet(w, wallet, id)) ==>
              s.Insert? && At(w, s.c).wallet == wallet
  {
    var me := At(w, s.c);
    if me != Idle && me.wallet == wallet {
      assert CallerOk(w, wallet, me);
    }
    if s.Derive? && s.drop.Some? {
      assert OfWallet(w, me.wallet, s.drop.value);
    }
    forall i | OfWallet(Next(w, s), wallet, i)
      ensures OfWallet(w, wallet, i) || (s.Insert? && i == s.id && me.wallet == wallet)
    {
    }
  }

  /** The stepping caller itself. */
  lemma StepKeepsSelf(w: World, s: Step, wallet: Id)
    requires LockInv(w) && FirstInv(w, wallet) && Enabled(w, s) && NoRotation(s)
    requires At(Next(w, s), s.c).wallet == wallet
    ensures CallerOk(Next(w, s), wallet, At(Next(w, s), s.c))
  {
    var me := At(w, s.c);
    StepKeepsRows(w, s, wallet);
    if !s.Call? {
      assert CallerOk(w, wallet, me);
      if me.Releasing? && me.result.Some? {
        assert Returned(me, me.result.value);
      }
    }
  }

  lemma StepKeepsFirst(w: World, s: Step, wallet: Id)
    requires LockInv(w) && FirstInv(w, wallet) && Enabled(w, s) && NoRotation(s)
    ensures FirstInv(Next(w, s), wallet)
  {
    var v := Next(w, s);
    StepKeepsRows(w, s, wallet);
    forall c | c in v.callers && v.callers[c] != Idle && v.callers[c].wallet == wallet
      ensures CallerOk(v, wallet, v.callers[c])
    {
      if c == s.c {
        StepKeepsSelf(w, s, wallet);
      } else {
        assert v.callers[c] == w.callers[c] && CallerOk(w, wallet, w.callers[c]);
        if Holds(w.callers[c]) && s.Insert? {
          assert At(w, s.c).wallet != wallet;
        }
      }
    }
  }

  lemma {:induction false} PlainRunKeeps(w: World, steps: seq<Step>, wallet: Id)
    requires LockInv(w) && FirstInv(w, wallet) && IsPlainRun(w, steps)
    ensures IsRun(w, steps) && LockInv(Run(w, steps)) && FirstInv(Run(w, steps), wallet)
    decreases |steps|
  {
    if steps != [] {
      StepKeepsLock(w, steps[0]);
      StepKeepsFirst(w, steps[0], wallet);
      PlainRunKeeps(Next(w, steps[0]), steps[1..], wallet);
    }
  }

  predicate Succeeded(w: World, c: nat, wallet: Id) {
    At(w, c).Done? && At(w, c).wallet == wallet && At(w, c).result.Some?
  }

  /** Any number of concurrent first callers of a wallet without addresses: at
      most one address is inserted and every successful caller returns it. */
  lemma FirstDerivationIsUnique(addresses: map<Id, Address>, steps: seq<Step>, wallet: Id, b: nat, c: nat)
    requires forall id :: id in addresses ==> addresses[id].wallet != wallet
    requires IsPlainRun(World(addresses, map[], map[]), steps)
    ensures IsRun(World(addresses, map[], map[]), steps)
    ensures var w := Run(World(addresses, map[], map[]), steps);
            && (forall i, j :: OfWallet(w, wallet, i) && OfWallet(w, wallet, j) ==> i == j)
            && (Succeeded(w, b, wallet) ==> IsActive(w, wallet, At(w, b).result.value))
            && (Succeeded(w, b, wallet) && Succeeded(w, c, wallet) ==> At(w, b).result == At(w, c).result)
  {
    var w0 := World(addresses, map[], map[]);
    PlainRunKeeps(w0, steps, wallet);
    var w := Run(w0, steps);
    forall a | Succeeded(w, a, wallet) ensures OfWallet(w, wallet, At(w, a).result.value) {
      assert CallerOk(w, wallet, w.callers[a]);
      assert Returned(w.callers[a], w.callers[a].result.value);
    }
  }

  /** With rotations, forced or by age, in any interleaving: at most one active
      address a wallet, and at most one caller in its critical section. */
  lemma OneActiveAlways(addresses: map<Id, Address>, steps: seq<Step>, b: nat, c: nat)
    requires OneActive(World(addresses, map[], map[]))
    requires IsRun(World(addresses, map[], map[]), steps)
    ensures var w := Run(World(addresses, map[], map[]), steps);
            && OneActive(w)
            && (Holds(At(w, b)) && Holds(At(w, c)) && b != c ==> At(w, b).wallet != At(w, c).wallet)
  {
    RunKeeps(World(addresses, map[], map[]), steps);
  }

  // ----- losing the race for the lock -----

  /** One round of a caller that finds the lock taken and sees no address yet. */
  lemma SpinRound(w: World, c: nat, token: string)
    requires At(w, c).Contending? && At(w, c).wallet in w.locks && !HasActive(w.addresses, At(w, c).wallet)
    ensures var me := At(w, c); var w1 := Next(w, Acquire(c, token));
      && Enabled(w1, CheckBusy(c, None))
      && var w2 := Next(w1, CheckBusy(c, None));
         && w2.addresses == w.addresses && w2.locks == w.locks
         && At(w2, c) == if me.attempt < 19 then Contending(me.wallet, me.attempt + 1) else Done(me.wallet, None)
  {
  }

  /** While the lock stays taken and no address appears, a first caller spins and
      gives up after exactly twenty attempts. */
  lemma {:induction false} GivesUpAfterTwenty(w: World, c: nat, token: string) returns (steps: seq<Step>)
    requires At(w, c).Contending? && At(w, c).attempt < 20
    requires At(w, c).wallet in w.locks && !HasActive(w.addresses, At(w, c).wallet)
    ensures IsRun(w, steps) && |steps| == 2 * (20 - At(w, c).attempt)
    ensures At(Run(w, steps), c) == Done(At(w, c).wallet, None) && Run(w, steps).addresses == w.addresses
    decreases 20 - At(w, c).attempt
  {
    SpinRound(w, c, token);
    var w1 := Next(w, Acquire(c, token));
    var w2 := Next(w1, CheckBusy(c, None));
    var rest := [];
    if At(w, c).attempt < 19 {
      rest := GivesUpAfterTwenty(w2, c, token);
    }
    steps := [CheckBusy(c, None)] + rest;
    assert steps[1..] == rest;
    assert IsRun(w1, steps) && Run(w1, steps) == Run(w2, rest);
    steps := [Acquire(c, token)] + steps;
    assert steps[1..] == [CheckBusy(c, None)] + rest;
  }

  /** As soon as it sees the winner's address, in any attempt, it returns it; so does
      a caller that gets the lock and finds the address there. */
  lemma LoserReturnsWinner(w: World, c: nat, id: Id, token: string)
    requires At(w, c).Contending? && IsActive(w, At(w, c).wallet, id)
    ensures var wallet := At(w, c).wallet; var w1 := Next(w, Acquire(c, token));
      if wallet in w.locks
      then Enabled(w1, CheckBusy(c, Some(id))) && At(Next(w1, CheckBusy(c, Some(id))), c) == Done(wallet, Some(id))
      else && Enabled(w1, Recheck(c, Some(id)))
           && var w2 := Next(w1, Recheck(c, Some(id)));
              && Enabled(w2, Release(c)) && At(Next(w2, Release(c)), c) == Done(wallet, Some(id))
              && Next(w2, Release(c)).locks == w.locks && w2.addresses == w.addresses
  {
    assert w.locks[At(w, c).wallet := token] - {At(w, c).wallet} == w.locks - {At(w, c).wallet};
  }

  // ----- keeping an active address -----

  /** A caller has the lock and is on its way to inserting a new address. */
  predicate IsReplacing(m: Caller, wallet: Id) { (m.Deriving? || m.Inserting?) && m.wallet == wallet }

  /** The wallet has an active address, or somebody is replacing it. */
  ghost predicate Covered(w: World, wallet: Id) {
    HasActive(w.addresses, wallet) || exists c :: c in w.callers && IsReplacing(w.callers[c], wallet)
  }

  /** An active address other than the one a derivation deprecates. */
  ghost predicate HasOther(w: World, wallet: Id, drop: Option<Id>) {
    exists id :: IsActive(w, wallet, id) && drop != Some(id)
  }

  /** A derivation fails with no other address active, or the new id is taken. */
  ghost predicate Loses(w: World, s: Step, wallet: Id)
    requires Enabled(w, s)
  {
    || (s.Derive? && At(w, s.c).wallet == wallet && !s.ok && !HasOther(w, wallet, s.drop))
    || (s.Insert? && At(w, s.c).wallet == wallet && s.id in w.addresses && !HasActive(w.addresses, wallet))
  }

  lemma DeriveKeepsActiveIff(w: World, c: nat, ok: bool, drop: Option<Id>)
    requires Enabled(w, Derive(c, ok, drop))
    ensures HasActive(Next(w, Derive(c, ok, drop)).addresses, At(w, c).wallet) <==> HasOther(w, At(w, c).wallet, drop)
  {
    var v, wallet := Next(w, Derive(c, ok, drop)), At(w, c).wallet;
    forall id ensures IsActive(v, wallet, id) <==> IsActive(w, wallet, id) && drop != Some(id) {}
    if HasOther(w, wallet, drop) {
      var id :| IsActive(w, wallet, id) && drop != Some(id);
      assert IsActive(v, wallet, id);
    } else if HasActive(v.addresses, wallet) {
      var id :| id in v.addresses && v.addresses[id].wallet == wallet && v.addresses[id].state == Active;
      assert IsActive(v, wallet, id);
    }
  }

  /** A step of a caller of another wallet leaves the wallet's active addresses. */
  lemma ForeignStep(w: World, s: Step, wallet: Id)
    requires LockInv(w) && Enabled(w, s) && (s.Deprecate? || s.Derive? || s.Insert?) && At(w, s.c).wallet != wallet
    ensures HasActive(Next(w, s).addresses, wallet) <==> HasActive(w.addresses, wallet)
  {
    var v := Next(w, s);
    forall id ensures IsActive(v, wallet, id) <==> IsActive(w, wallet, id) {}
    if HasActive(w.addresses, wallet) {
      var id :| id in w.addresses && w.addresses[id].wallet == wallet && w.addresses[id].state == Active;
      assert IsActive(v, wallet, id);
    }
    if HasActive(v.addresses, wallet) {
      var id :| id in v.addresses && v.addresses[id].wallet == wallet && v.addresses[id].state == Active;
      assert IsActive(w, wallet, id);
    }
  }

  /** Others go on replacing. */
  lemma OthersReplace(w: World, s: Step, c: nat, wallet: Id)
    requires Enabled(w, s) && c in w.callers && IsReplacing(w.callers[c], wallet) && c != s.c
    ensures c in Next(w, s).callers && IsReplacing(Next(w, s).callers[c], wallet)
  {
  }

  lemma OwnStepCoversIff(w: World, s: Step, wallet: Id)
    requires LockInv(w) && Enabled(w, s) && (s.Deprecate? || s.Derive? || s.Insert?) && At(w, s.c).wallet == wallet
    ensures Covered(Next(w, s), wallet) <==> !Loses(w, s, wallet)
  {
    var v := Next(w, s);
    assert forall c :: c in w.callers && c != s.c ==> !IsReplacing(w.callers[c], wallet);
    assert forall c :: c in v.callers && c != s.c ==> c in w.callers && v.callers[c] == w.callers[c];
    assert s.c in v.callers;
    if s.Derive? {
      DeriveKeepsActiveIff(w, s.c, s.ok, s.drop);
    } else if s.Insert? {
      if CanInsertAddress(w.addresses, s.id, s.row) {
        assert v.addresses[s.id].wallet == wallet && v.addresses[s.id].state == Active;
      }
    } else {
      assert IsReplacing(v.callers[s.c], wallet);
    }
  }

  /** Every step leaves a wallet with an active address, or with somebody replacing
      it, if and only if no derivation fails after the last active address was
      deprecated and no new id is taken. */
  lemma StepKeepsCoveredIff(w: World, s: Step, wallet: Id)
    requires LockInv(w) && Enabled(w, s) && Covered(w, wallet)
    ensures Covered(Next(w, s), wallet) <==> !Loses(w, s, wallet)
  {
    if (s.Deprecate? || s.Derive? || s.Insert?) && At(w, s.c).wallet == wallet {
      OwnStepCoversIff(w, s, wallet);
    } else {
      if s.Deprecate? || s.Derive? || s.Insert? { ForeignStep(w, s, wallet); }
      if !HasActive(w.addresses, wallet) {
        var c :| c in w.callers && IsReplacing(w.callers[c], wallet);
        OthersReplace(w, s, c, wallet);
      }
    }
  }

  ghost predicate NeverLoses(w: World, steps: seq<Step>, wallet: Id)
    requires IsRun(w, steps)
    decreases |steps|
  {
    steps != [] ==> !Loses(w, steps[0], wallet) && NeverLoses(Next(w, steps[0]), steps[1..], wallet)
  }

  lemma {:induction false} RunKeepsCovered(w: World, steps: seq<Step>, wallet: Id)
    requires LockInv(w) && Covered(w, wallet) && IsRun(w, steps) && NeverLoses(w, steps, wallet)
    ensures LockInv(Run(w, steps)) && Covered(Run(w, steps), wallet)
    decreases |steps|
  {
    if steps != [] {
      StepKeepsLock(w, steps[0]);
      StepKeepsCoveredIff(w, steps[0], wallet);
      RunKeepsCovered(Next(w, steps[0]), steps[1..], wallet);
    }
  }

  /** In every such run, a wallet that started with an active address has one
      whenever its lock is free. */
  lemma ActiveIsKept(addresses: map<Id, Address>, steps: seq<Step>, wallet: Id)
    requires HasActive(addresses, wallet)
    requires IsRun(World(addresses, map[], map[]), steps) && NeverLoses(World(addresses, map[], map[]), steps, wallet)
    ensures var w := Run(World(addresses, map[], map[]), steps);
      wallet !in w.locks ==> HasActive(w.addresses, wallet)
  {
    RunKeepsCovered(World(addresses, map[], map[]), steps, wallet);
  }

  lemma StepFirst(w: World, s: Step, rest: seq<Step>) returns (steps: seq<Step>)
    requires Enabled(w, s) && IsRun(Next(w, s), rest)
    ensures IsRun(w, steps) && Run(w, steps) == Run(Next(w, s), rest)
  {
    steps := [s] + rest;
    assert steps[1..] == rest;
  }

  /** A forced rotation whose derivation fails, from the lock on. */
  lemma FailingDerivation(w: World, wallet: Id, id: Id, token: string) returns (steps: seq<Step>)
    requires At(w, 0) == Deprecating(wallet, token, id) && w.locks == map[wallet := token]
    ensures IsRun(w, steps) && Run(w, steps).addresses == DeprecateAddress(w.addresses, id) && Run(w, steps).locks == map[]
  {
    var w1 := Next(w, Deprecate(0));
    var w2 := Next(w1, Derive(0, false, None));
    steps := StepFirst(w2, Release(0), []);
    assert Next(w2, Release(0)).locks == map[];
    steps := StepFirst(w1, Derive(0, false, None), steps);
    steps := StepFirst(w, Deprecate(0), steps);
  }

  /** From the lock on, a rotation whose derivation succeeds. */
  lemma SucceedingDerivation(w: World, c: nat, wallet: Id, id: Id, token: string, newId: Id, row: Address)
    returns (steps: seq<Step>)
    requires At(w, c) == Deprecating(wallet, token, id) && wallet in w.locks && w.locks[wallet] == token
    requires IsActive(w, wallet, id) && (forall j :: IsActive(w, wallet, j) ==> j == id)
    requires newId !in w.addresses && row.wallet == wallet && row.state == Active
    ensures IsRun(w, steps) && At(Run(w, steps), c) == Done(wallet, Some(newId))
    ensures Run(w, steps).addresses == w.addresses[id := w.addresses[id].(state := Deprecated)][newId := row]
    ensures Run(w, steps).locks == w.locks - {wallet}
  {
    var w1 := Next(w, Deprecate(c));
    var w2 := Next(w1, Derive(c, true, None));
    forall j ensures !IsActive(w2, wallet, j) {
      assert IsActive(w2, wallet, j) ==> IsActive(w, wallet, j);
    }
    assert !HasActive(w2.addresses, wallet) by {
      if HasActive(w2.addresses, wallet) {
        var j :| j in w2.addresses && w2.addresses[j].wallet == wallet && w2.addresses[j].state == Active;
        assert IsActive(w2, wallet, j);
      }
    }
    var w3 := Next(w2, Insert(c, newId, row));
    steps := StepFirst(w3, Release(c), []);
    steps := StepFirst(w2, Insert(c, newId, row), steps);
    steps := StepFirst(w1, Derive(c, true, None), steps);
    steps := StepFirst(w, Deprecate(c), steps);
  }

  /** A caller that forces a rotation, or finds the address aged, gets a new active
      address when the lock is free and the derivation succeeds; the old one is
      deprecated and nothing else changes. */
  lemma RotationReplaces(w: World, c: nat, id: Id, aged: bool, token: string, newId: Id, row: Address)
    returns (steps: seq<Step>)
    requires At(w, c).Peeking? && (At(w, c).force || aged) && At(w, c).wallet !in w.locks
    requires IsActive(w, At(w, c).wallet, id) && (forall j :: IsActive(w, At(w, c).wallet, j) ==> j == id)
    requires newId !in w.addresses && row.wallet == At(w, c).wallet && row.state == Active
    ensures IsRun(w, steps) && steps != [] && steps[0] == Peek(c, Some(id), aged)
    ensures At(Run(w, steps), c) == Done(At(w, c).wallet, Some(newId)) && Run(w, steps).locks == w.locks
    ensures Run(w, steps).addresses == w.addresses[id := w.addresses[id].(state := Deprecated)][newId := row]
  {
    var wallet := At(w, c).wallet;
    var w1 := Next(w, Peek(c, Some(id), aged));
    var w2 := Next(w1, Acquire(c, token));
    assert forall j :: IsActive(w2, wallet, j) <==> IsActive(w, wallet, j);
    var rest := SucceedingDerivation(w2, c, wallet, id, token, newId, row);
    assert w.locks[wallet := token] - {wallet} == w.locks;
    rest := StepFirst(w1, Acquire(c, token), rest);
    steps := [Peek(c, Some(id), aged)] + rest;
    assert steps[1..] == rest;
  }

  /** A caller that neither forces nor finds it aged returns the address it saw. */
  lemma FreshIsReturned(w: World, c: nat, id: Id)
    requires At(w, c).Peeking? && !At(w, c).force && IsActive(w, At(w, c).wallet, id)
    ensures var w' := Next(w, Peek(c, Some(id), false));
      At(w', c) == Done(At(w, c).wallet, Some(id)) && w'.addresses == w.addresses && w'.locks == w.locks
  {
  }

  /** So a wallet with an active address can end up without one. */
  lemma FailedRotationLoses(addresses: map<Id, Address>, wallet: Id, id: Id, token: string) returns (steps: seq<Step>)
    requires OneActive(World(addresses, map[], map[])) && IsActive(World(addresses, map[], map[]), wallet, id)
    ensures var w := World(addresses, map[], map[]);
      IsRun(w, steps) && !HasActive(Run(w, steps).addresses, wallet) && Run(w, steps).locks == map[]
  {
    var w := World(addresses, map[], map[]);
    var w1 := Next(w, Call(0, wallet, true));
    var w2 := Next(w1, Peek(0, Some(id), false));
    var w3 := Next(w2, Acquire(0, token));
    steps := FailingDerivation(w3, wallet, id, token);
    steps := StepFirst(w2, Acquire(0, token), steps);
    steps := StepFirst(w1, Peek(0, Some(id), false), steps);
    steps := StepFirst(w, Call(0, wallet, true), steps);
  }
}
