/** The store's hand-written reentrant lock: a mutex plus a table of depths kept
    per goroutine, stepped by any number of goroutines in any order. */
module StoreLock {
  import opened Text

  /** Which release function a `lock()` call returned. */
  datatype Release = Outer | Nested

  /** Outside the lock code; waiting for the mutex; holding it with the depth not
      yet set; depth cleared with the mutex not yet released. */
  datatype Pc = Outside | WantMutex | GotMutex | Dropping

  /** `releases` are the release functions not yet called, newest last; `seen` is
      the depth a transaction read just before locking. */
  datatype Goroutine = Goroutine(pc: Pc, releases: seq<Release>, seen: Option<int>)

  datatype State = State(mutex: Option<nat>, depths: map<nat, int>, goroutines: map<nat, Goroutine>)

  const START := State(None, map[], map[])

  const FRESH := Goroutine(Outside, [], None)

  function At(s: State, g: nat): Goroutine { if g in s.goroutines then s.goroutines[g] else FRESH }

  function Depth(s: State, g: nat): int { if g in s.depths then s.depths[g] else 0 }

  function Set(s: State, g: nat, r: Goroutine): State { s.(goroutines := s.goroutines[g := r]) }

  /** Subtracts one and deletes the entry at zero. */
  function Decrement(d: map<nat, int>, g: nat): map<nat, int> {
    var n := (if g in d then d[g] else 0) - 1;
    if n == 0 then d - {g} else d[g := n]
  }

  /** The steps of `lock()`, of the functions it returns, and of the depth read a
      transaction makes first. Sections under the depth mutex are one step. */
  datatype Step =
    | ReadDepth(g: nat)
    | Enter(g: nat)
    | Acquire(g: nat)
    | SetDepth(g: nat)
    | Exit(g: nat)
    | Unlock(g: nat)

  predicate Enabled(s: State, step: Step) {
    var me := At(s, step.g);
    match step
    case ReadDepth(g) => me.pc == Outside && me.seen == None
    case Enter(g) => me.pc == Outside
    case Acquire(g) => me.pc == WantMutex && s.mutex == None
    case SetDepth(g) => me.pc == GotMutex
    case Exit(g) => me.pc == Outside && me.releases != [] && me.seen == None
    case Unlock(g) => me.pc == Dropping
  }

  function Next(s: State, step: Step): State
    requires Enabled(s, step)
  {
    var me := At(s, step.g);
    match step
    case ReadDepth(g) => Set(s, g, me.(seen := Some(Depth(s, g))))
    case Enter(g) =>
      if Depth(s, g) > 0
      then Set(s, g, Goroutine(Outside, me.releases + [Nested], None)).(depths := s.depths[g := Depth(s, g) + 1])
      else Set(s, g, me.(pc := WantMutex))
    case Acquire(g) => Set(s, g, me.(pc := GotMutex)).(mutex := Some(g))
    case SetDepth(g) => Set(s, g, Goroutine(Outside, me.releases + [Outer], None)).(depths := s.depths[g := 1])
    case Exit(g) =>
      var last := me.releases[|me.releases| - 1];
      Set(s, g, Goroutine(if last == Outer then Dropping else Outside, me.releases[..|me.releases| - 1], None))
        .(depths := Decrement(s.depths, g))
    case Unlock(g) => Set(s, g, me.(pc := Outside)).(mutex := None)
  }

  /** Executions that take only enabled steps. */
  predicate IsRun(s: State, steps: seq<Step>)
    decreases |steps|
  {
    steps == [] || (Enabled(s, steps[0]) && IsRun(Next(s, steps[0]), steps[1..]))
  }

  function Run(s: State, steps: seq<Step>): State
    requires IsRun(s, steps)
    decreases |steps|
  {
    if steps == [] then s else Run(Next(s, steps[0]), steps[1..])
  }

  predicate Owns(r: Goroutine) { r.releases != [] || r.pc == GotMutex || r.pc == Dropping }

  /** Outer first, then nested ones only. */
  predicate WellNested(rs: seq<Release>) {
    forall i :: 0 <= i < |rs| ==> (rs[i] == Outer <==> i == 0)
  }

  ghost predicate LocalOk(s: State, g: nat) {
    var me := At(s, g);
    && WellNested(me.releases)
    && Depth(s, g) == |me.releases|
    && (me.pc != Outside ==> me.releases == [])
    && (me.seen.Some? ==> me.seen.value == Depth(s, g))
    && (Owns(me) <==> s.mutex == Some(g))
  }

  ghost predicate Inv(s: State) { forall g :: LocalOk(s, g) }

  lemma StepKeeps(s: State, step: Step)
    requires Inv(s) && Enabled(s, step)
    ensures Inv(Next(s, step))
  {
    var t := Next(s, step);
    forall g ensures LocalOk(t, g) {
      assert LocalOk(s, g) && LocalOk(s, step.g);
    }
  }

  lemma {:induction false} RunKeeps(s: State, steps: seq<Step>)
    requires Inv(s) && IsRun(s, steps)
    ensures Inv(Run(s, steps))
    decreases |steps|
  {
    if steps != [] {
      StepKeeps(s, steps[0]);
      RunKeeps(Next(s, steps[0]), steps[1..]);
    }
  }

  /** In every interleaving: one goroutine at most has a positive depth, it owns
      the mutex, nobody waits for a mutex of their own, and only the owner is about
      to release it. */
  lemma MutualExclusion(steps: seq<Step>, g: nat, h: nat)
    requires IsRun(START, steps)
    ensures var s := Run(START, steps);
            && (Depth(s, g) > 0 && Depth(s, h) > 0 ==> g == h)
            && (Depth(s, g) > 0 ==> s.mutex == Some(g))
            && Depth(s, g) == |At(s, g).releases|
            && (At(s, g).pc == WantMutex ==> s.mutex != Some(g))
            && (At(s, g).pc == Dropping ==> s.mutex == Some(g))
  {
    RunKeeps(START, steps);
    var s := Run(START, steps);
    assert LocalOk(s, g) && LocalOk(s, h);
  }

  /** The depth a transaction read is still right when it locks: it takes the
      nested path exactly when it read a positive depth. */
  lemma ReadDepthStays(steps: seq<Step>, g: nat)
    requires IsRun(START, steps)
    requires At(Run(START, steps), g).seen.Some?
    ensures var s := Run(START, steps);
            var d := At(s, g).seen.value;
            && d == Depth(s, g)
            && (At(s, g).pc != Outside ==> d == 0)
            && (At(s, g).pc == Outside ==> (d > 0 <==> At(Next(s, Enter(g)), g).pc == Outside))
  {
    RunKeeps(START, steps);
    assert LocalOk(Run(START, steps), g);
  }

  // ----- no deadlock -----

  predicate OnlyBy(steps: seq<Step>, g: nat) { forall i :: 0 <= i < |steps| ==> steps[i].g == g }

  /** The owner's next step towards giving the mutex back: finish locking, enter
      what it has announced, call the newest release function, or unlock. */
  function TowardsRelease(s: State, g: nat): Step {
    var me := At(s, g);
    if me.pc == GotMutex then SetDepth(g)
    else if me.pc == Dropping then Unlock(g)
    else if me.seen.Some? then Enter(g)
    else Exit(g)
  }

  function Rank(s: State, g: nat): (int, int, int) {
    var me := At(s, g);
    (if me.pc == GotMutex then 2 else if me.pc == Dropping then 0 else 1, if me.seen.Some? then 1 else 0, |me.releases|)
  }

  lemma OwnerMoves(s: State, g: nat)
    requires Inv(s) && s.mutex == Some(g)
    ensures var st := TowardsRelease(s, g);
      && Enabled(s, st)
      && var t := Next(s, st);
         && (At(s, g).pc == Dropping ==> t.mutex == None)
         && (At(s, g).pc != Dropping ==> t.mutex == Some(g))
         && var (a, b, c) := Rank(s, g); var (x, y, z) := Rank(t, g);
            At(s, g).pc != Dropping ==> x < a || (x == a && y < b) || (x == a && y == b && z < c)
  {
    assert LocalOk(s, g);
  }

  /** The owner alone can always get to releasing the mutex. */
  lemma {:induction false} OwnerCanRelease(s: State, g: nat) returns (steps: seq<Step>)
    requires Inv(s) && s.mutex == Some(g)
    ensures IsRun(s, steps) && OnlyBy(steps, g) && Run(s, steps).mutex == None
    decreases Rank(s, g).0, Rank(s, g).1, Rank(s, g).2
  {
    OwnerMoves(s, g);
    var st := TowardsRelease(s, g);
    var rest := [];
    if At(s, g).pc != Dropping {
      StepKeeps(s, st);
      rest := OwnerCanRelease(Next(s, st), g);
    }
    steps := [st] + rest;
    assert steps[1..] == rest;
  }

  /** The owner's steps leave everybody else where they are. */
  lemma {:induction false} OthersStay(s: State, steps: seq<Step>, g: nat, h: nat)
    requires IsRun(s, steps) && OnlyBy(steps, g) && g != h
    ensures At(Run(s, steps), h) == At(s, h)
    decreases |steps|
  {
    if steps != [] {
      OthersStay(Next(s, steps[0]), steps[1..], g, h);
    }
  }

  lemma {:induction false} RunConcat(s: State, a: seq<Step>, b: seq<Step>)
    requires IsRun(s, a) && IsRun(Run(s, a), b)
    ensures IsRun(s, a + b) && Run(s, a + b) == Run(Run(s, a), b)
    decreases |a|
  {
    if a == [] {
      assert a + b == b;
    } else {
      assert (a + b)[1..] == a[1..] + b;
      RunConcat(Next(s, a[0]), a[1..], b);
    }
  }

  lemma RunOne(s: State, step: Step)
    requires Enabled(s, step)
    ensures IsRun(s, [step]) && Run(s, [step]) == Next(s, step)
  {
    assert IsRun(Next(s, step), [step][1..]);
    assert Run(Next(s, step), [step][1..]) == Next(s, step);
  }

  /** The lock cannot deadlock: from every reachable state, whoever waits for the
      mutex can still get it, after steps of its owner alone. */
  lemma WaiterCanAcquire(steps: seq<Step>, g: nat) returns (more: seq<Step>)
    requires IsRun(START, steps) && At(Run(START, steps), g).pc == WantMutex
    ensures var s := Run(START, steps);
      && IsRun(s, more) && Run(s, more).mutex == Some(g) && At(Run(s, more), g).pc == GotMutex
      && forall i :: 0 <= i < |more| - 1 ==> s.mutex == Some(more[i].g)
  {
    RunKeeps(START, steps);
    var s := Run(START, steps);
    assert LocalOk(s, g);
    var free: seq<Step> := [];
    if s.mutex.Some? {
      free := OwnerCanRelease(s, s.mutex.value);
      OthersStay(s, free, s.mutex.value, g);
    }
    var t := Run(s, free);
    RunOne(t, Acquire(g));
    RunConcat(s, free, [Acquire(g)]);
    more := free + [Acquire(g)];
  }
}
