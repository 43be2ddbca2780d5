/** The mutex over a spin lock and the task scheduler, sync/mutex.rs, as a machine whose steps are the
    atomic actions of the tasks that use it. */
module Mutexes {
  import opened Bytes

  /** Where a task is in MutexGuard::new or in its drop. */
  datatype Pc =
    | Idle
    | Locking        // wants the spin lock
    | Checking       // holds it, and looks at the flag
    | Acquired       // holds it, and has set the flag
    | Holding        // has the guard
    | BlockWants     // has found the mutex locked, holds the spin lock, wants the scheduler's lock
    | BlockBoth      // holds both locks
    | BlockDropped   // has let go of the spin lock
    | BlockDone      // is pending or not, still holds the scheduler's lock
    | Sleeping       // has left the processor
    | Unlocking      // drops the guard, wants the spin lock
    | Unlocked       // holds it, and has cleared the flag
    | ReleaseWants   // wants the scheduler's lock
    | Releasing      // holds it
    | Released       // holds it, and has woken the waiting tasks
    | Elsewhere      // holds the scheduler's lock for other purposes
  {
    predicate HoldsSpin() {
      Checking? || Acquired? || BlockWants? || BlockBoth? || Unlocked?
    }

    predicate HoldsQueue() {
      BlockBoth? || BlockDropped? || BlockDone? || Releasing? || Released? || Elsewhere?
    }

    /** Has acquired the mutex and not given it back. */
    predicate Owns() {
      Acquired? || Holding? || Unlocking?
    }

    /** Wants the mutex and does not have it yet. */
    predicate Wants() {
      Locking? || Checking? || Acquired? || BlockWants? || BlockBoth? || BlockDropped? || BlockDone? || Sleeping?
    }

    /** Has given the mutex back, and has yet to wake the waiting tasks. */
    predicate InFlight() {
      Unlocked? || ReleaseWants? || Releasing?
    }
  }

  datatype State = State(pcs: map<nat, Pc>, spin: Option<nat>, queue: Option<nat>, locked: bool, pending: set<nat>) {
    function Goto(t: nat, pc: Pc): State {
      this.(pcs := pcs[t := pc])
    }
  }

  ghost predicate Initial(s: State) {
    && (forall t :: t in s.pcs ==> s.pcs[t] == Idle)
    && s.spin == None && s.queue == None && !s.locked && s.pending == {}
  }

  /** Blocking puts the task aside if there is another one to run, and otherwise goes on. */
  ghost predicate BlockStep(s: State, s': State, t: nat)
    requires t in s.pcs
  {
    match s.pcs[t]
    case BlockWants => s.queue == None && s' == s.(queue := Some(t)).Goto(t, BlockBoth)
    case BlockBoth => s' == s.(spin := None).Goto(t, BlockDropped)
    case BlockDropped => s' == s.(pending := s.pending + {t}).Goto(t, BlockDone) || s' == s.Goto(t, BlockDone)
    case BlockDone => s' == s.(queue := None).Goto(t, if t in s.pending then Sleeping else Locking)
    case _ => false
  }

  ghost predicate LockStep(s: State, s': State, t: nat)
    requires t in s.pcs
  {
    match s.pcs[t]
    case Idle => s' == s.Goto(t, Locking) || (s.queue == None && s' == s.(queue := Some(t)).Goto(t, Elsewhere))
    case Elsewhere => s' == s.(queue := None).Goto(t, Idle)
    case Locking => s.spin == None && s' == s.(spin := Some(t)).Goto(t, Checking)
    case Checking => s' == if s.locked then s.Goto(t, BlockWants) else s.(locked := true).Goto(t, Acquired)
    case Acquired => s' == s.(spin := None).Goto(t, Holding)
    case _ => false
  }

  /** A release wakes everybody who is pending on the channel. */
  ghost predicate UnlockStep(s: State, s': State, t: nat)
    requires t in s.pcs
  {
    match s.pcs[t]
    case Holding => s' == s.Goto(t, Unlocking)
    case Unlocking => s.spin == None && s' == s.(spin := Some(t), locked := false).Goto(t, Unlocked)
    case Unlocked => s' == s.(spin := None).Goto(t, ReleaseWants)
    case ReleaseWants => s.queue == None && s' == s.(queue := Some(t)).Goto(t, Releasing)
    case Releasing => s' == Woken(s, s.pending).Goto(t, Released)
    case Released => s' == s.(queue := None).Goto(t, Idle)
    case _ => false
  }

  /** The tasks `ts` are runnable again. */
  ghost function Woken(s: State, ts: set<nat>): State {
    s.(pending := s.pending - ts, pcs := map t | t in s.pcs :: if t in ts && s.pcs[t] == Sleeping then Locking else s.pcs[t])
  }

  /** Somebody else may release a channel of the same number. */
  ghost predicate StrayWake(s: State, s': State) {
    s.queue == None && s' == Woken(s, s.pending)
  }

  ghost predicate Next(s: State, s': State) {
    || StrayWake(s, s')
    || exists t: nat :: t in s.pcs && (LockStep(s, s', t) || BlockStep(s, s', t) || UnlockStep(s, s', t))
  }

  // ---- what every step keeps ----

  /** Each lock is held by whoever is in a place where it holds it. */
  ghost predicate LocksOk(s: State) {
    && (forall t: nat :: t in s.pcs && s.pcs[t].HoldsSpin() <==> s.spin == Some(t))
    && (forall t: nat :: t in s.pcs && s.pcs[t].HoldsQueue() <==> s.queue == Some(t))
  }

  ghost predicate OwnerOk(s: State) {
    && (forall t: nat, u: nat :: t in s.pcs && u in s.pcs && s.pcs[t].Owns() && s.pcs[u].Owns() ==> t == u)
    && (s.locked <==> exists t: nat :: t in s.pcs && s.pcs[t].Owns())
  }

  /** A task that is about to wait. */
  predicate WillWait(s: State, t: nat) {
    t in s.pcs && (s.pcs[t].BlockDropped? || t in s.pending)
  }

  ghost predicate SomeoneWakes(s: State) {
    exists u: nat :: u in s.pcs && s.pcs[u].InFlight()
  }

  ghost predicate WaitOk(s: State) {
    && (forall t: nat :: t in s.pcs && (s.pcs[t].BlockWants? || s.pcs[t].BlockBoth?) ==> s.locked)
    && (forall t: nat :: t in s.pending ==> t in s.pcs && (s.pcs[t].BlockDone? || s.pcs[t].Sleeping?))
    && (forall t: nat :: t in s.pcs && s.pcs[t].Sleeping? ==> t in s.pending)
    && (forall t: nat :: WillWait(s, t) ==> s.locked || SomeoneWakes(s))
  }

  ghost predicate Inv(s: State) {
    LocksOk(s) && OwnerOk(s) && WaitOk(s)
  }

  /** What a step of `t` other than the wake-up may do. */
  ghost predicate Effect(s: State, s': State, t: nat) {
    && t in s.pcs && t in s'.pcs
    && (forall u: nat :: u != t ==> (u in s'.pcs <==> u in s.pcs) && (u in s.pcs ==> s'.pcs[u] == s.pcs[u]))
    && var pc, pc' := s.pcs[t], s'.pcs[t];
       && s'.spin == (if pc'.HoldsSpin() then Some(t) else if pc.HoldsSpin() then None else s.spin)
       && (pc'.HoldsSpin() && !pc.HoldsSpin() ==> s.spin == None)
       && s'.queue == (if pc'.HoldsQueue() then Some(t) else if pc.HoldsQueue() then None else s.queue)
       && (pc'.HoldsQueue() && !pc.HoldsQueue() ==> s.queue == None)
       && s'.locked == (if pc'.Owns() == pc.Owns() then s.locked else pc'.Owns())
       && (pc'.Owns() && !pc.Owns() ==> !s.locked)
       && (pc.Owns() && !pc'.Owns() ==> pc'.Unlocked?)
       && (pc.InFlight() ==> pc'.InFlight() || (pc.Releasing? && pc'.Released? && s.pending == {}))
       && (pc'.BlockWants? || pc'.BlockBoth? ==> s'.locked)
       && (pc'.BlockDropped? ==> pc.BlockBoth?)
       && (s'.pending == s.pending || (s'.pending == s.pending + {t} && pc.BlockDropped?))
       && (t in s'.pending ==> pc'.BlockDone? || pc'.Sleeping?)
       && (pc'.Sleeping? ==> t in s'.pending)
  }

  lemma {:induction false} LocksKept(s: State, s': State, t: nat)
    requires LocksOk(s) && Effect(s, s', t)
    ensures LocksOk(s')
  {
  }

  lemma {:induction false} OwnerKept(s: State, s': State, t: nat)
    requires OwnerOk(s) && Effect(s, s', t)
    ensures OwnerOk(s')
  {
    if s.locked && s.pcs[t].Owns() == s'.pcs[t].Owns() {
      var u: nat :| u in s.pcs && s.pcs[u].Owns();
      assert u in s'.pcs && s'.pcs[u].Owns();
    }
  }

  /** Whoever was about to wake the others still is, unless that was `t`, and nobody waits any more. */
  lemma {:induction false} WakerKept(s: State, s': State, t: nat)
    requires Effect(s, s', t) && (s.locked || SomeoneWakes(s))
    ensures s'.locked || SomeoneWakes(s') || (s.pcs[t].Releasing? && s.pending == {})
  {
    if s'.pcs[t].InFlight() {
      assert SomeoneWakes(s');
    } else if !s'.locked && SomeoneWakes(s) {
      var u: nat :| u in s.pcs && s.pcs[u].InFlight();
      assert u != t ==> s'.pcs[u].InFlight();
    }
  }

  lemma {:induction false} WaitKept(s: State, s': State, t: nat)
    requires Inv(s) && Effect(s, s', t)
    ensures WaitOk(s')
  {
    hide OwnerOk, SomeoneWakes;
    forall u: nat | WillWait(s', u) ensures s'.locked || SomeoneWakes(s') {
      if WillWait(s, u) {
        WakerKept(s, s', t);
        assert s.pcs[t].Releasing? && u != t && s.pcs[u].BlockDropped? ==> s.queue == Some(u);
      }
    }
  }

  /** What a task knows at its place. */
  ghost predicate Local(s: State, t: nat)
    requires t in s.pcs
  {
    && (t in s.pending ==> s.pcs[t].BlockDone? || s.pcs[t].Sleeping?)
    && (s.pcs[t].BlockWants? || s.pcs[t].BlockBoth? ==> s.locked)
    && (s.pcs[t].HoldsSpin() <==> s.spin == Some(t))
    && (s.pcs[t].HoldsQueue() <==> s.queue == Some(t))
  }

  lemma {:induction false} LocalOf(s: State, t: nat)
    requires Inv(s) && t in s.pcs
    ensures Local(s, t)
  {
  }

  lemma {:induction false} IdleEffect(s: State, s': State, t: nat)
    requires t in s.pcs && Local(s, t) && LockStep(s, s', t) && (s.pcs[t].Idle? || s.pcs[t].Elsewhere?)
    ensures Effect(s, s', t)
  {
  }

  lemma {:induction false} LockingEffect(s: State, s': State, t: nat)
    requires t in s.pcs && Local(s, t) && LockStep(s, s', t) && !s.pcs[t].Idle? && !s.pcs[t].Elsewhere?
    ensures Effect(s, s', t)
  {
  }

  lemma {:induction false} LockEffect(s: State, s': State, t: nat)
    requires t in s.pcs && Local(s, t) && LockStep(s, s', t)
    ensures Effect(s, s', t)
  {
    hide Effect, Local, LockStep;
    if s.pcs[t].Idle? || s.pcs[t].Elsewhere? {
      IdleEffect(s, s', t);
    } else {
      LockingEffect(s, s', t);
    }
  }

  lemma {:induction false} BlockEffect(s: State, s': State, t: nat)
    requires t in s.pcs && Local(s, t) && BlockStep(s, s', t)
    ensures Effect(s, s', t)
  {
  }

  lemma {:induction false} UnlockEffect(s: State, s': State, t: nat)
    requires t in s.pcs && Local(s, t) && UnlockStep(s, s', t)
    ensures Effect(if s.pcs[t].Releasing? then Woken(s, s.pending) else s, s', t)
  {
  }

  lemma {:induction false} WokenKeeps(s: State)
    requires Inv(s)
    ensures Inv(Woken(s, s.pending))
  {
    hide LocksOk, OwnerOk, WaitOk, Woken;
    WokenOthers(s);
    WokenWaits(s);
  }

  lemma {:induction false} WokenWaits(s: State)
    requires WaitOk(s)
    ensures WaitOk(Woken(s, s.pending))
  {
    var s' := Woken(s, s.pending);
    assert forall t: nat :: WillWait(s', t) ==> WillWait(s, t);
    if SomeoneWakes(s) {
      var u: nat :| u in s.pcs && s.pcs[u].InFlight();
      assert s'.pcs[u].InFlight();
    }
  }

  lemma {:induction false} WokenOthers(s: State)
    requires LocksOk(s) && OwnerOk(s)
    ensures LocksOk(Woken(s, s.pending)) && OwnerOk(Woken(s, s.pending))
  {
    var s' := Woken(s, s.pending);
    assert forall t: nat :: t in s.pcs ==>
      && s'.pcs[t].HoldsSpin() == s.pcs[t].HoldsSpin() && s'.pcs[t].HoldsQueue() == s.pcs[t].HoldsQueue()
      && s'.pcs[t].Owns() == s.pcs[t].Owns() && s'.pcs[t].InFlight() == s.pcs[t].InFlight()
      && (s'.pcs[t] == s.pcs[t] || s'.pcs[t].Locking?);
    if s.locked {
      var u: nat :| u in s.pcs && s.pcs[u].Owns();
      assert s'.pcs[u].Owns();
    }
  }

  lemma {:induction false} EffectKeeps(s: State, s': State, t: nat)
    requires Inv(s) && Effect(s, s', t)
    ensures Inv(s')
  {
    hide LocksOk, OwnerOk, WaitOk, Effect;
    LocksKept(s, s', t);
    OwnerKept(s, s', t);
    WaitKept(s, s', t);
  }

  /** Every step keeps the invariant. */
  lemma {:induction false} NextKeeps(s: State, s': State)
    requires Inv(s) && Next(s, s')
    ensures Inv(s')
  {
    hide Inv, LockStep, BlockStep, UnlockStep, Effect, Woken, Local;
    WokenKeeps(s);
    if !StrayWake(s, s') {
      var t: nat :| t in s.pcs && (LockStep(s, s', t) || BlockStep(s, s', t) || UnlockStep(s, s', t));
      LocalOf(s, t);
      if LockStep(s, s', t) {
        LockEffect(s, s', t);
        EffectKeeps(s, s', t);
      } else if BlockStep(s, s', t) {
        BlockEffect(s, s', t);
        EffectKeeps(s, s', t);
      } else {
        UnlockEffect(s, s', t);
        EffectKeeps(if s.pcs[t].Releasing? then Woken(s, s.pending) else s, s', t);
      }
    }
  }

  // ---- runs ----

  ghost predicate IsRun(run: seq<State>) {
    && run != [] && Initial(run[0])
    && forall i: nat :: i + 1 < |run| ==> NextAt(run, i)
  }

  ghost predicate NextAt(run: seq<State>, i: nat)
    requires i + 1 < |run|
  {
    Next(run[i], run[i + 1])
  }

  /** In every interleaving at most one task has the mutex, and a task that waits for it waits for
      somebody who has it or who is about to wake it. */
  lemma {:induction false} MutexSafe(run: seq<State>, i: nat)
    requires IsRun(run) && i < |run|
    ensures Inv(run[i])
    ensures forall t: nat, u: nat :: t in run[i].pcs && u in run[i].pcs && run[i].pcs[t].Holding? && run[i].pcs[u].Holding? ==> t == u
    ensures run[i].pending != {} ==> run[i].locked || SomeoneWakes(run[i])
  {
    hide Next;
    if i > 0 {
      MutexSafe(run, i - 1);
      assert NextAt(run, i - 1);
      NextKeeps(run[i - 1], run[i]);
    }
    if run[i].pending != {} {
      var t :| t in run[i].pending;
      assert WillWait(run[i], t);
    }
  }

  // ---- the course of a lock ----

  /** Where a task can go in one step: it gets the mutex before it returns, and gives it back only by dropping the
      guard. */
  ghost predicate Follows(pc: Pc, pc': Pc) {
    && (pc.Wants() ==> pc'.Wants() || pc'.Holding?)
    && (pc.Holding? ==> pc'.Holding? || pc'.Unlocking?)
    && (pc.Unlocking? ==> pc'.Unlocking? || pc'.Unlocked?)
    && (pc.Unlocked? || pc.ReleaseWants? || pc.Releasing? ==> pc'.InFlight() || pc'.Released?)
    && (pc'.Holding? ==> pc.Holding? || pc.Acquired?)
    && (pc'.Idle? ==> pc.Idle? || pc.Released? || pc.Elsewhere?)
  }

  lemma {:induction false} StepFollowsOf(s: State, s': State, u: nat, t: nat)
    requires u in s.pcs && t in s.pcs && (LockStep(s, s', u) || BlockStep(s, s', u) || UnlockStep(s, s', u))
    ensures t in s'.pcs && Follows(s.pcs[t], s'.pcs[t])
  {
  }

  lemma {:induction false} StepFollows(s: State, s': State, t: nat)
    requires Next(s, s') && t in s.pcs
    ensures t in s'.pcs && Follows(s.pcs[t], s'.pcs[t])
  {
    hide LockStep, BlockStep, UnlockStep;
    if !StrayWake(s, s') {
      hide Follows;
      var u: nat :| u in s.pcs && (LockStep(s, s', u) || BlockStep(s, s', u) || UnlockStep(s, s', u));
      StepFollowsOf(s, s', u, t);
    }
  }

  ghost predicate WantsAt(run: seq<State>, t: nat, x: nat) {
    x < |run| && t in run[x].pcs && run[x].pcs[t].Wants()
  }

  /** In every interleaving a call to lock returns with the guard and in no other way: from the first state in which
      the task wants the mutex it wants it until it is the one task that holds it. */
  lemma {:induction false} LockReturns(run: seq<State>, t: nat, i: nat, j: nat) returns (m: nat)
    requires IsRun(run) && i < j < |run| && WantsAt(run, t, i) && t in run[j].pcs && !run[j].pcs[t].Wants()
    ensures i < m <= j && (forall x: nat :: i <= x < m ==> WantsAt(run, t, x))
    ensures t in run[m].pcs && run[m].pcs[t].Holding? && run[m].locked
    ensures forall u: nat :: u in run[m].pcs && run[m].pcs[u].Owns() ==> u == t
    decreases j - i
  {
    hide IsRun, Next;
    RunStep(run, i);
    StepFollows(run[i], run[i + 1], t);
    if run[i + 1].pcs[t].Wants() {
      m := LockReturns(run, t, i + 1, j);
    } else {
      m := i + 1;
      MutexSafe(run, m);
    }
  }

  lemma RunStep(run: seq<State>, i: nat)
    requires IsRun(run) && i + 1 < |run|
    ensures Next(run[i], run[i + 1])
  {
    assert NextAt(run, i);
  }

  // ---- progress ----

  /** Task `t` is in the middle of something and can go on. */
  ghost predicate CanStep(s: State, t: nat) {
    t in s.pcs && !s.pcs[t].Idle? && exists s' :: LockStep(s, s', t) || BlockStep(s, s', t) || UnlockStep(s, s', t)
  }

  lemma {:induction false} LockCan(s: State, t: nat)
    requires t in s.pcs && (s.pcs[t].Elsewhere? || s.pcs[t].Checking? || s.pcs[t].Acquired? || (s.pcs[t].Locking? && s.spin == None))
    ensures CanStep(s, t)
  {
    hide BlockStep, UnlockStep;
    match s.pcs[t]
    case Elsewhere => assert LockStep(s, s.(queue := None).Goto(t, Idle), t);
    case Locking => assert LockStep(s, s.(spin := Some(t)).Goto(t, Checking), t);
    case Checking => assert LockStep(s, if s.locked then s.Goto(t, BlockWants) else s.(locked := true).Goto(t, Acquired), t);
    case Acquired => assert LockStep(s, s.(spin := None).Goto(t, Holding), t);
  }

  lemma {:induction false} BlockCan(s: State, t: nat)
    requires t in s.pcs && (s.pcs[t].BlockBoth? || s.pcs[t].BlockDropped? || s.pcs[t].BlockDone? || (s.pcs[t].BlockWants? && s.queue == None))
    ensures CanStep(s, t)
  {
    hide LockStep, UnlockStep;
    match s.pcs[t]
    case BlockWants => assert BlockStep(s, s.(queue := Some(t)).Goto(t, BlockBoth), t);
    case BlockBoth => assert BlockStep(s, s.(spin := None).Goto(t, BlockDropped), t);
    case BlockDropped => assert BlockStep(s, s.Goto(t, BlockDone), t);
    case BlockDone => assert BlockStep(s, s.(queue := None).Goto(t, if t in s.pending then Sleeping else Locking), t);
  }

  lemma {:induction false} UnlockCan(s: State, t: nat)
    requires t in s.pcs
    requires || s.pcs[t].Holding? || s.pcs[t].Unlocked? || s.pcs[t].Releasing? || s.pcs[t].Released?
             || (s.pcs[t].Unlocking? && s.spin == None) || (s.pcs[t].ReleaseWants? && s.queue == None)
    ensures CanStep(s, t)
  {
    hide LockStep, BlockStep, Woken;
    match s.pcs[t]
    case Holding => assert UnlockStep(s, s.Goto(t, Unlocking), t);
    case Unlocking => assert UnlockStep(s, s.(spin := Some(t), locked := false).Goto(t, Unlocked), t);
    case Unlocked => assert UnlockStep(s, s.(spin := None).Goto(t, ReleaseWants), t);
    case ReleaseWants => assert UnlockStep(s, s.(queue := Some(t)).Goto(t, Releasing), t);
    case Releasing => assert UnlockStep(s, Woken(s, s.pending).Goto(t, Released), t);
    case Released => assert UnlockStep(s, s.(queue := None).Goto(t, Idle), t);
  }

  lemma {:induction false} AwakeCan(s: State, t: nat)
    requires t in s.pcs && !s.pcs[t].Idle? && !s.pcs[t].Sleeping?
    requires s.pcs[t].HoldsQueue() || (s.queue == None && (s.pcs[t].HoldsSpin() || s.spin == None))
    ensures CanStep(s, t)
  {
    hide CanStep;
    var pc := s.pcs[t];
    if pc.Elsewhere? || pc.Checking? || pc.Acquired? || pc.Locking? {
      LockCan(s, t);
    } else if pc.BlockWants? || pc.BlockBoth? || pc.BlockDropped? || pc.BlockDone? {
      BlockCan(s, t);
    } else {
      UnlockCan(s, t);
    }
  }

  /** There is no deadlock: in every interleaving somebody can go on as long as anybody is in the middle of something. */
  lemma {:induction false} NoDeadlock(run: seq<State>, i: nat, t: nat)
    requires IsRun(run) && i < |run| && t in run[i].pcs && !run[i].pcs[t].Idle?
    ensures exists u: nat :: CanStep(run[i], u)
  {
    MutexSafe(run, i);
    hide IsRun, CanStep;
    var s := run[i];
    if s.queue.Some? {
      assert s.queue.value in s.pcs;
      AwakeCan(s, s.queue.value);
    } else if s.spin.Some? {
      assert s.spin.value in s.pcs;
      AwakeCan(s, s.spin.value);
    } else if !s.pcs[t].Sleeping? {
      AwakeCan(s, t);
    } else if s.locked {
      var u: nat :| u in s.pcs && s.pcs[u].Owns();
      AwakeCan(s, u);
    } else {
      var u: nat :| u in s.pcs && s.pcs[u].InFlight();
      AwakeCan(s, u);
    }
  }
}
