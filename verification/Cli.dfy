/** Interrupt-flag guards across interrupts and context switches, interrupts.rs and context.rs, as a
    machine whose steps are the atomic actions of the processors. */
module Guards {

  /** The registers that belong to a thread: the guard depth, whether interrupts were off before the
      first guard, and the interrupt flag. */
  datatype Regs = Regs(ncli: nat, zcli: bool, flag: bool)

  /** Where a thread is in making or dropping a guard. */
  datatype Phase =
    | Run
    | Read(cli: bool)     // Cli::new: has read the flag
    | Off(cli: bool)      // Cli::new: has cleared the flag
    | Dropped(sti: bool)  // drop: has counted down

  /** What a thread holds: its live guards, what the interrupts it is in have interrupted, and the flag
      outside all guards. */
  datatype Thread = Thread(phase: Phase, guards: nat, frames: seq<Phase>, base: bool)

  datatype Cpu = Cpu(thread: nat, regs: Regs)

  datatype State = State(cpus: seq<Cpu>, saved: map<nat, Regs>, threads: map<nat, Thread>) {
    function Thread(c: nat): nat
      requires c < |cpus|
    {
      cpus[c].thread
    }

    /** A step of the thread on processor `c` that leaves it there. */
    function Step(c: nat, regs: Regs, th: Thread): State
      requires c < |cpus|
    {
      this.(cpus := cpus[c := cpus[c].(regs := regs)], threads := threads[cpus[c].thread := th])
    }
  }

  /** Each processor starts with a thread of its own, all without guards. */
  ghost predicate Initial(s: State) {
    && (forall c, d :: 0 <= c < d < |s.cpus| ==> s.cpus[c].thread != s.cpus[d].thread)
    && (forall c :: 0 <= c < |s.cpus| ==>
          && s.cpus[c].thread in s.threads && s.cpus[c].thread !in s.saved
          && s.cpus[c].regs == Regs(0, false, s.cpus[c].regs.flag)
          && s.threads[s.cpus[c].thread] == Thread(Run, 0, [], s.cpus[c].regs.flag))
    && s.saved == map[]
  }

  /** Cli::new, in three actions. */
  ghost predicate NewStep(s: State, s': State, c: nat)
    requires c < |s.cpus| && s.Thread(c) in s.threads
  {
    var r, th := s.cpus[c].regs, s.threads[s.Thread(c)];
    match th.phase
    case Run => s' == s.Step(c, r, th.(phase := Read(!r.flag)))
    case Read(cli) => s' == s.Step(c, r.(flag := false), th.(phase := Off(cli)))
    case Off(cli) => s' == s.Step(c, r.(ncli := r.ncli + 1, zcli := if r.ncli == 0 then cli else r.zcli), th.(phase := Run, guards := th.guards + 1))
    case _ => false
  }

  /** The drop of a guard asserts that interrupts are off. */
  predicate DropAsserts(r: Regs) {
    !r.flag
  }

  ghost predicate DropStep(s: State, s': State, c: nat)
    requires c < |s.cpus| && s.Thread(c) in s.threads
  {
    var r, th := s.cpus[c].regs, s.threads[s.Thread(c)];
    match th.phase
    case Run =>
      && th.guards > 0 && DropAsserts(r) && r.ncli > 0
      && s' == s.Step(c, r.(ncli := r.ncli - 1), th.(phase := Dropped(r.ncli == 1 && !r.zcli), guards := th.guards - 1))
    case Dropped(sti) => s' == s.Step(c, r.(flag := r.flag || sti), th.(phase := Run))
    case _ => false
  }

  /** An interrupt comes only while the flag is set, and its return sets it again. */
  ghost predicate InterruptStep(s: State, s': State, c: nat)
    requires c < |s.cpus| && s.Thread(c) in s.threads
  {
    var r, th := s.cpus[c].regs, s.threads[s.Thread(c)];
    || (r.flag && s' == s.Step(c, r.(flag := false), Thread(Run, th.guards, th.frames + [th.phase], false)))
    || (th.phase.Run? && th.guards == 0 && th.frames != [] && s' == s.Step(c, r.(flag := true),
          Thread(th.frames[|th.frames| - 1], 0, th.frames[..|th.frames| - 1], true)))
  }

  /** Context::switch, with at least one guard, to a thread that is not running. */
  ghost predicate SwitchStep(s: State, s': State, c: nat, next: nat)
    requires c < |s.cpus| && s.Thread(c) in s.threads
  {
    var r, th := s.cpus[c].regs, s.threads[s.Thread(c)];
    && th.phase.Run? && th.guards > 0 && next in s.saved
    && s' == s.(cpus := s.cpus[c := Cpu(next, s.saved[next])], saved := (s.saved - {next})[s.Thread(c) := r])
  }

  /** A new context starts with interrupts enabled. */
  ghost predicate SpawnStep(s: State, s': State, t: nat) {
    t !in s.threads && s' == s.(saved := s.saved[t := Regs(0, false, true)], threads := s.threads[t := Thread(Run, 0, [], true)])
  }

  ghost predicate Next(s: State, s': State) {
    || (exists t: nat :: SpawnStep(s, s', t))
    || exists c: nat :: c < |s.cpus| && s.Thread(c) in s.threads &&
         (NewStep(s, s', c) || DropStep(s, s', c) || InterruptStep(s, s', c) || exists next: nat :: SwitchStep(s, s', c, next))
  }

  // ---- what every step keeps ----

  /** The registers fit what the thread holds. */
  predicate Fits(r: Regs, th: Thread) {
    && r.ncli == th.guards
    && (th.guards > 0 ==> !r.flag && r.zcli == !th.base)
    && match th.phase
       case Run => th.guards == 0 ==> r.flag == th.base
       case Read(cli) => if th.guards == 0 then r.flag == th.base && cli == !th.base else cli
       case Off(cli) => !r.flag && (th.guards == 0 ==> cli == !th.base)
       case Dropped(sti) => !r.flag && sti == (th.guards == 0 && th.base)
  }

  /** Only threads without guards are interrupted, and interrupts do not nest. */
  predicate FramesOk(th: Thread) {
    && (forall i :: 0 <= i < |th.frames| ==> th.frames[i] == Run || th.frames[i] == Read(false))
    && |th.frames| <= 1
    && (th.frames != [] ==> !th.base)
  }

  ghost predicate Inv(s: State) {
    && (forall c: nat, d: nat :: c < |s.cpus| && d < |s.cpus| && c != d ==> s.cpus[c].thread != s.cpus[d].thread)
    && (forall c: nat :: c < |s.cpus| ==> s.cpus[c].thread in s.threads && s.cpus[c].thread !in s.saved && Fits(s.cpus[c].regs, s.threads[s.cpus[c].thread]) && FramesOk(s.threads[s.cpus[c].thread]))
    && (forall t: nat :: t in s.saved ==> t in s.threads && Fits(s.saved[t], s.threads[t]) && FramesOk(s.threads[t]) && s.threads[t].phase.Run?)
  }

  /** A step of one thread on its processor. */
  lemma {:induction false} StepKeeps(s: State, c: nat, r: Regs, th: Thread)
    requires Inv(s) && c < |s.cpus| && Fits(r, th) && FramesOk(th)
    ensures Inv(s.Step(c, r, th))
  {
    hide Fits, FramesOk;
  }

  lemma {:induction false} NewKeeps(s: State, s': State, c: nat)
    requires Inv(s) && c < |s.cpus| && NewStep(s, s', c)
    ensures Inv(s')
  {
    ThreadOk(s, c);
    hide Inv, FramesOk;
    StepKeepsIf(s, s', c);
  }

  /** What is known of the thread on a processor. */
  lemma {:induction false} ThreadOk(s: State, c: nat)
    requires Inv(s) && c < |s.cpus|
    ensures s.Thread(c) in s.threads && Fits(s.cpus[c].regs, s.threads[s.Thread(c)]) && FramesOk(s.threads[s.Thread(c)])
  {
  }

  lemma {:induction false} StepKeepsIf(s: State, s': State, c: nat)
    requires Inv(s) && c < |s.cpus| == |s'.cpus| && s.Thread(c) in s'.threads && s' == s.Step(c, s'.cpus[c].regs, s'.threads[s.Thread(c)])
    requires Fits(s'.cpus[c].regs, s'.threads[s.Thread(c)]) && FramesOk(s'.threads[s.Thread(c)])
    ensures Inv(s')
  {
    StepKeeps(s, c, s'.cpus[c].regs, s'.threads[s.Thread(c)]);
  }

  lemma {:induction false} DropKeeps(s: State, s': State, c: nat)
    requires Inv(s) && c < |s.cpus| && DropStep(s, s', c)
    ensures Inv(s')
  {
    ThreadOk(s, c);
    hide Inv, FramesOk;
    StepKeepsIf(s, s', c);
  }

  lemma {:induction false} InterruptKeeps(s: State, s': State, c: nat)
    requires Inv(s) && c < |s.cpus| && InterruptStep(s, s', c)
    ensures Inv(s')
  {
    ThreadOk(s, c);
    hide Inv;
    StepKeepsIf(s, s', c);
  }

  lemma {:induction false} SwitchKeeps(s: State, s': State, c: nat, next: nat)
    requires Inv(s) && c < |s.cpus| && SwitchStep(s, s', c, next)
    ensures Inv(s')
  {
    hide Fits, FramesOk;
  }

  lemma {:induction false} SpawnKeeps(s: State, s': State, t: nat)
    requires Inv(s) && SpawnStep(s, s', t)
    ensures Inv(s')
  {
  }

  /** Every step keeps the invariant. */
  lemma {:induction false} NextKeeps(s: State, s': State)
    requires Inv(s) && Next(s, s')
    ensures Inv(s')
  {
    hide Inv, NewStep, DropStep, InterruptStep, SwitchStep, SpawnStep;
    if t: nat :| SpawnStep(s, s', t) {
      SpawnKeeps(s, s', t);
    } else {
      var c: nat :| c < |s.cpus| && s.Thread(c) in s.threads &&
        (NewStep(s, s', c) || DropStep(s, s', c) || InterruptStep(s, s', c) || exists next: nat :: SwitchStep(s, s', c, next));
      if NewStep(s, s', c) {
        NewKeeps(s, s', c);
      } else if DropStep(s, s', c) {
        DropKeeps(s, s', c);
      } else if InterruptStep(s, s', c) {
        InterruptKeeps(s, s', c);
      } else {
        var next: nat :| SwitchStep(s, s', c, next);
        SwitchKeeps(s, s', c, next);
      }
    }
  }

  /** The flag of a thread outside its guards and its interrupts. */
  predicate Outer(th: Thread) {
    th.base || th.frames != []
  }

  /** No step changes it. */
  lemma {:induction false} OuterStays(s: State, s': State, t: nat)
    requires Inv(s) && Next(s, s') && t in s.threads
    ensures t in s'.threads && Outer(s'.threads[t]) == Outer(s.threads[t])
  {
    hide Inv;
    if u: nat :| SpawnStep(s, s', u) {
    } else {
      var c: nat :| c < |s.cpus| && s.Thread(c) in s.threads &&
        (NewStep(s, s', c) || DropStep(s, s', c) || InterruptStep(s, s', c) || exists next: nat :: SwitchStep(s, s', c, next));
      ThreadOk(s, c);
    }
  }

  // ---- runs ----

  ghost predicate NextAt(run: seq<State>, i: nat)
    requires i + 1 < |run|
  {
    Next(run[i], run[i + 1])
  }

  ghost predicate IsRun(run: seq<State>) {
    run != [] && Initial(run[0]) && forall i: nat :: i + 1 < |run| ==> NextAt(run, i)
  }

  /** In every interleaving of processors: a thread with a guard runs with interrupts off, so that the
      assertion in drop holds, and without one its flag is back to what it was. */
  lemma {:induction false} GuardsSafe(run: seq<State>, i: nat, c: nat)
    requires IsRun(run) && i < |run| && c < |run[i].cpus|
    ensures Inv(run[i])
    ensures run[i].Thread(c) in run[i].threads
    ensures var r, th := run[i].cpus[c].regs, run[i].threads[run[i].Thread(c)];
            && r.ncli == th.guards
            && (th.guards > 0 ==> DropAsserts(r))
            && (th.guards == 0 && th.phase.Run? ==> r.flag == th.base)
  {
    RunKeeps(run, i);
    ThreadOk(run[i], c);
  }

  lemma {:induction false} RunKeeps(run: seq<State>, i: nat)
    requires IsRun(run) && i < |run|
    ensures Inv(run[i])
  {
    hide Next;
    if i > 0 {
      RunKeeps(run, i - 1);
      assert NextAt(run, i - 1);
      NextKeeps(run[i - 1], run[i]);
    }
  }

  /** The registers of a thread are on its processor or saved. */
  ghost predicate HasRegs(s: State, t: nat, r: Regs) {
    || (exists c: nat :: c < |s.cpus| && s.cpus[c] == Cpu(t, r))
    || (t in s.saved && s.saved[t] == r)
  }

  lemma {:induction false} RegsFit(s: State, t: nat, r: Regs)
    requires Inv(s) && HasRegs(s, t, r)
    ensures t in s.threads && Fits(r, s.threads[t]) && FramesOk(s.threads[t])
  {
  }

  lemma {:induction false} OuterConstant(run: seq<State>, i: nat, j: nat, t: nat)
    requires IsRun(run) && i <= j < |run| && t in run[i].threads
    ensures t in run[j].threads && Outer(run[j].threads[t]) == Outer(run[i].threads[t])
  {
    hide Next, Outer;
    if i < j {
      OuterConstant(run, i, j - 1, t);
      RunKeeps(run, j - 1);
      assert NextAt(run, j - 1);
      OuterStays(run[j - 1], run[j], t);
    }
  }

  /** Whatever happens in between: when a thread has read the flag for its first guard and is later without
      guards again, at the same depth of interrupts, its flag is what it was before the first guard. */
  lemma {:induction false} FlagRestored(run: seq<State>, i: nat, j: nat, t: nat, before: Regs, after: Regs)
    requires IsRun(run) && i <= j < |run| && HasRegs(run[i], t, before) && HasRegs(run[j], t, after)
    requires t in run[i].threads && run[i].threads[t].phase.Read? && run[i].threads[t].guards == 0
    requires t in run[j].threads && run[j].threads[t].phase.Run? && run[j].threads[t].guards == 0
    requires |run[i].threads[t].frames| == |run[j].threads[t].frames|
    ensures after.flag == before.flag == !run[i].threads[t].phase.cli
  {
    hide IsRun, HasRegs, Inv;
    RunKeeps(run, i);
    RunKeeps(run, j);
    RegsFit(run[i], t, before);
    RegsFit(run[j], t, after);
    OuterConstant(run, i, j, t);
  }

  // ---- progress ----

  ghost predicate OnCpu(s: State, t: nat) {
    exists c: nat :: c < |s.cpus| && s.cpus[c].thread == t
  }

  /** The thread runs or is saved, and not both. */
  ghost predicate HasPlace(s: State, t: nat) {
    OnCpu(s, t) != (t in s.saved)
  }

  lemma {:induction false} SwitchPlaces(s: State, s': State, c: nat, next: nat, t: nat)
    requires Inv(s) && c < |s.cpus| && SwitchStep(s, s', c, next) && HasPlace(s, t)
    ensures HasPlace(s', t)
  {
    hide Fits, FramesOk;
    assert s'.cpus[c].thread == next && next !in s'.saved && s.Thread(c) in s'.saved;
    forall d: nat | d < |s.cpus| && d != c ensures s'.cpus[d].thread == s.cpus[d].thread != s.Thread(c) {
    }
    if OnCpu(s, t) && t != s.Thread(c) {
      var d: nat :| d < |s.cpus| && s.cpus[d].thread == t;
      assert s'.cpus[d].thread == t;
    }
  }

  lemma {:induction false} StepPlaces(s: State, s': State, t: nat)
    requires Inv(s) && Next(s, s') && HasPlace(s, t)
    ensures HasPlace(s', t)
  {
    hide Fits, FramesOk, SwitchStep;
    if u: nat :| SpawnStep(s, s', u) {
      assert OnCpu(s', t) <==> OnCpu(s, t);
      assert OnCpu(s, t) ==> t in s.threads;
    } else {
      var c: nat :| c < |s.cpus| && s.Thread(c) in s.threads &&
        (NewStep(s, s', c) || DropStep(s, s', c) || InterruptStep(s, s', c) || exists next: nat :: SwitchStep(s, s', c, next));
      if next: nat :| SwitchStep(s, s', c, next) {
        SwitchPlaces(s, s', c, next, t);
      } else {
        SamePlaces(s, s', c, t);
      }
    }
  }

  lemma {:induction false} SamePlaces(s: State, s': State, c: nat, t: nat)
    requires c < |s.cpus| && s.Thread(c) in s.threads && (NewStep(s, s', c) || DropStep(s, s', c) || InterruptStep(s, s', c))
    ensures HasPlace(s', t) <==> HasPlace(s, t)
  {
    assert s'.saved == s.saved && |s'.cpus| == |s.cpus|;
    assert forall d: nat :: d < |s.cpus| ==> s'.cpus[d].thread == s.cpus[d].thread;
  }

  /** No thread gets lost or runs on two processors: whoever runs or is saved at some time does so ever after. */
  lemma {:induction false} NobodyLost(run: seq<State>, i: nat, j: nat, t: nat)
    requires IsRun(run) && i <= j < |run| && HasPlace(run[i], t)
    ensures HasPlace(run[j], t)
    ensures forall c: nat, d: nat :: c < |run[j].cpus| && d < |run[j].cpus| && run[j].cpus[c].thread == t == run[j].cpus[d].thread ==> c == d
  {
    RunKeeps(run, j);
    hide Next, HasPlace, Fits, FramesOk;
    if i < j {
      NobodyLost(run, i, j - 1, t);
      RunKeeps(run, j - 1);
      assert NextAt(run, j - 1);
      StepPlaces(run[j - 1], run[j], t);
    }
  }

  lemma {:induction false} Initially(s: State, c: nat)
    requires Initial(s) && c < |s.cpus|
    ensures HasPlace(s, s.cpus[c].thread)
  {
  }

  /** In every interleaving the thread of a processor can finish what it has begun: a guard that it is making or dropping,
      and the drop of one that it has, whose assertion holds and which brings the flag back after the last one. */
  lemma {:induction false} GuardsProceed(run: seq<State>, i: nat, c: nat)
    requires IsRun(run) && i < |run| && c < |run[i].cpus|
    ensures run[i].Thread(c) in run[i].threads
    ensures var th := run[i].threads[run[i].Thread(c)];
            match th.phase
            case Run => th.guards > 0 ==> exists s' :: DropStep(run[i], s', c)
            case Dropped(_) => exists s' :: DropStep(run[i], s', c) && s'.cpus[c].regs.flag == (th.guards == 0 && th.base)
            case _ => exists s' :: NewStep(run[i], s', c)
  {
    GuardsSafe(run, i, c);
    ThreadOk(run[i], c);
    hide IsRun, Inv, FramesOk;
    var s := run[i];
    var r, th := s.cpus[c].regs, s.threads[s.Thread(c)];
    match th.phase
    case Run =>
      if th.guards > 0 {
        assert DropStep(s, s.Step(c, r.(ncli := r.ncli - 1), th.(phase := Dropped(r.ncli == 1 && !r.zcli), guards := th.guards - 1)), c);
      }
    case Dropped(sti) =>
      assert DropStep(s, s.Step(c, r.(flag := r.flag || sti), th.(phase := Run)), c);
    case Read(cli) =>
      assert NewStep(s, s.Step(c, r.(flag := false), th.(phase := Off(cli))), c);
    case Off(cli) =>
      assert NewStep(s, s.Step(c, r.(ncli := r.ncli + 1, zcli := if r.ncli == 0 then cli else r.zcli), th.(phase := Run, guards := th.guards + 1)), c);
  }
}
