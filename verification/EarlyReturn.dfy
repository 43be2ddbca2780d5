/** A run of devices/virtio/block.rs in which requests return early. */
module EarlyReturns {
  import opened Bytes
  import opened BlockRequests

  /** A task 0 that makes requests and a task 1; all footers of task 0 are at the same address. */
  function Two(pc: Pc, other: Pc, pending: set<nat>, others: nat, sent: nat, free: nat, flight: set<nat>,
      used: set<nat>, alone: set<nat>, mistaken: set<nat>): State
  {
    State(_ => 0, map[0 := pc, 1 := other],
          if pc.HoldsSpin() then Some(0) else if other.HoldsSpin() then Some(1) else None,
          if pc.HoldsQueue() then Some(0) else if other.HoldsQueue() then Some(1) else None,
          pending, others, sent, free, flight, used, alone, mistaken)
  }

  lemma Moved(s: State, pc: Pc, other: Pc)
    requires s.pcs == map[0 := pc, 1 := other]
    ensures forall p: Pc :: s.pcs[0 := p] == map[0 := p, 1 := other]
    ensures forall p: Pc :: s.pcs[1 := p] == map[0 := pc, 1 := p]
  {
  }

  /** Task 0 takes a step that changes its locks only, while task 1 does nothing. */
  lemma {:induction false} Walks(pc: Pc, pc': Pc, pending: set<nat>, others: nat, sent: nat, free: nat,
      flight: set<nat>, used: set<nat>, alone: set<nat>, mistaken: set<nat>)
    requires match pc
             case Idle => pc' == Wants
             case Wants => pc' == Sending
             case SentWants(r) => pc' == SentBoth(r)
             case SentBoth(r) => pc' == SentDropped(r)
             case SentDone(r) => pc' == if 0 in pending then SentSleeping(r) else Finished(r)
             case Finished(_) => pc' == Idle
             case _ => false
    ensures Next(Two(pc, Idle, pending, others, sent, free, flight, used, alone, mistaken),
                 Two(pc', Idle, pending, others, sent, free, flight, used, alone, mistaken))
  {
    hide Next, Two;
    match pc {
      case Idle => Begins(pc, pc', pending, others, sent, free, flight, used, alone, mistaken);
      case Wants => Begins(pc, pc', pending, others, sent, free, flight, used, alone, mistaken);
      case Finished(_) => Begins(pc, pc', pending, others, sent, free, flight, used, alone, mistaken);
      case _ => Waits(pc, pc', pending, others, sent, free, flight, used, alone, mistaken);
    }
  }

  lemma {:induction false} Begins(pc: Pc, pc': Pc, pending: set<nat>, others: nat, sent: nat, free: nat,
      flight: set<nat>, used: set<nat>, alone: set<nat>, mistaken: set<nat>)
    requires match pc case Idle => pc' == Wants case Wants => pc' == Sending case Finished(_) => pc' == Idle case _ => false
    ensures Next(Two(pc, Idle, pending, others, sent, free, flight, used, alone, mistaken),
                 Two(pc', Idle, pending, others, sent, free, flight, used, alone, mistaken))
  {
    var s := Two(pc, Idle, pending, others, sent, free, flight, used, alone, mistaken);
    Moved(s, pc, Idle);
    assert RequestStep(s, Two(pc', Idle, pending, others, sent, free, flight, used, alone, mistaken), 0);
  }

  lemma {:induction false} Waits(pc: Pc, pc': Pc, pending: set<nat>, others: nat, sent: nat, free: nat,
      flight: set<nat>, used: set<nat>, alone: set<nat>, mistaken: set<nat>)
    requires match pc
             case SentWants(r) => pc' == SentBoth(r)
             case SentBoth(r) => pc' == SentDropped(r)
             case SentDone(r) => pc' == if 0 in pending then SentSleeping(r) else Finished(r)
             case _ => false
    ensures Next(Two(pc, Idle, pending, others, sent, free, flight, used, alone, mistaken),
                 Two(pc', Idle, pending, others, sent, free, flight, used, alone, mistaken))
  {
    var s := Two(pc, Idle, pending, others, sent, free, flight, used, alone, mistaken);
    Moved(s, pc, Idle);
    assert SentStep(s, Two(pc', Idle, pending, others, sent, free, flight, used, alone, mistaken), 0);
  }

  /** It sends a request. */
  lemma {:induction false} Sends(others: nat, sent: nat, free: nat, flight: set<nat>, alone: set<nat>)
    ensures Next(Two(Sending, Idle, {}, others, sent, free + NEEDED, flight, {}, alone, {}),
                 Two(SentWants(sent), Idle, {}, others, sent + 1, free, flight + {sent}, {}, alone, {}))
  {
    var s := Two(Sending, Idle, {}, others, sent, free + NEEDED, flight, {}, alone, {});
    Moved(s, Sending, Idle);
    assert RequestStep(s, Two(SentWants(sent), Idle, {}, others, sent + 1, free, flight + {sent}, {}, alone, {}), 0);
  }

  /** It blocks and finds nobody, or somebody. */
  lemma {:induction false} Blocks(r: nat, sent: nat, free: nat, flight: set<nat>, alone: set<nat>)
    ensures Next(Two(SentDropped(r), Idle, {}, 0, sent, free, flight, {}, alone, {}),
                 Two(SentDone(r), Idle, {}, 0, sent, free, flight, {}, alone + {r}, {}))
    ensures Next(Two(SentDropped(r), Idle, {}, 1, sent, free, flight, {}, alone, {}),
                 Two(SentDone(r), Idle, {0}, 0, sent, free, flight, {}, alone, {}))
  {
    var s := Two(SentDropped(r), Idle, {}, 0, sent, free, flight, {}, alone, {});
    Moved(s, SentDropped(r), Idle);
    assert BlockStep(s, Two(SentDone(r), Idle, {}, 0, sent, free, flight, {}, alone + {r}, {}), 0);
    var u := Two(SentDropped(r), Idle, {}, 1, sent, free, flight, {}, alone, {});
    Moved(u, SentDropped(r), Idle);
    assert BlockStep(u, Two(SentDone(r), Idle, {0}, 0, sent, free, flight, {}, alone, {}), 0);
  }

  /** Task 1 makes a task runnable. */
  lemma {:induction false} Readies(sent: nat, free: nat, flight: set<nat>, alone: set<nat>)
    ensures Next(Two(Idle, Idle, {}, 0, sent, free, flight, {}, alone, {}), Two(Idle, Elsewhere, {}, 0, sent, free, flight, {}, alone, {}))
    ensures Next(Two(Idle, Elsewhere, {}, 0, sent, free, flight, {}, alone, {}), Two(Idle, Idle, {}, 1, sent, free, flight, {}, alone, {}))
  {
    var s := Two(Idle, Idle, {}, 0, sent, free, flight, {}, alone, {});
    var u := Two(Idle, Elsewhere, {}, 0, sent, free, flight, {}, alone, {});
    Moved(s, Idle, Idle);
    Moved(u, Idle, Elsewhere);
    assert RequestStep(s, u, 1);
    assert RequestStep(u, Two(Idle, Idle, {}, 1, sent, free, flight, {}, alone, {}), 1);
  }

  /** While task 0 sleeps on request 1, the device gives back request 0. */
  lemma {:induction false} GivesBack()
    ensures Next(Two(SentSleeping(1), Idle, {0}, 0, 2, 0, {0, 1}, {}, {0}, {}), Two(SentSleeping(1), Idle, {0}, 0, 2, 0, {1}, {0}, {0}, {}))
  {
    var s := Two(SentSleeping(1), Idle, {0}, 0, 2, 0, {0, 1}, {}, {0}, {});
    assert 0 in s.flight && s.flight - {0} == {1} && s.used + {0} == {0};
    assert DeviceStep(s, Two(SentSleeping(1), Idle, {0}, 0, 2, 0, {1}, {0}, {0}, {}));
  }

  /** Task 1 goes to collect while task 0 sleeps. */
  lemma {:induction false} GoesToCollect(r: nat, pending: set<nat>, others: nat, sent: nat, free: nat,
      flight: set<nat>, used: set<nat>, alone: set<nat>, mistaken: set<nat>)
    ensures Next(Two(SentSleeping(r), Idle, pending, others, sent, free, flight, used, alone, mistaken),
                 Two(SentSleeping(r), CollectWants, pending, others, sent, free, flight, used, alone, mistaken))
  {
    var s := Two(SentSleeping(r), Idle, pending, others, sent, free, flight, used, alone, mistaken);
    Moved(s, SentSleeping(r), Idle);
    assert RequestStep(s, Two(SentSleeping(r), CollectWants, pending, others, sent, free, flight, used, alone, mistaken), 1);
  }

  lemma {:induction false} Collects(r: nat, pending: set<nat>, others: nat, sent: nat, free: nat,
      flight: set<nat>, used: set<nat>, alone: set<nat>, mistaken: set<nat>)
    ensures Next(Two(SentSleeping(r), CollectWants, pending, others, sent, free, flight, used, alone, mistaken),
                 Two(SentSleeping(r), Collecting, pending, others, sent, free, flight, used, alone, mistaken))
  {
    var s := Two(SentSleeping(r), CollectWants, pending, others, sent, free, flight, used, alone, mistaken);
    Moved(s, SentSleeping(r), CollectWants);
    assert CollectStep(s, Two(SentSleeping(r), Collecting, pending, others, sent, free, flight, used, alone, mistaken), 1);
  }

  /** It takes back request 0. */
  lemma {:induction false} TakesBack(pending: set<nat>, flight: set<nat>, alone: set<nat>)
    ensures Next(Two(SentSleeping(1), Collecting, pending, 0, 2, 0, flight, {0}, alone, {}),
                 Two(SentSleeping(1), CompleteWants(0), pending, 0, 2, 3, flight, {}, alone, {}))
  {
    var s := Two(SentSleeping(1), Collecting, pending, 0, 2, 0, flight, {0}, alone, {});
    Moved(s, SentSleeping(1), Collecting);
    assert 0 in s.used && s.used - {0} == {};
    assert CollectStep(s, Two(SentSleeping(1), CompleteWants(0), pending, 0, 2, 3, flight, {}, alone, {}), 1);
  }

  lemma {:induction false} Locks()
    ensures Next(Two(SentSleeping(1), CompleteWants(0), {0}, 0, 2, 3, {1}, {}, {0}, {}),
                 Two(SentSleeping(1), Completing(0), {0}, 0, 2, 3, {1}, {}, {0}, {}))
  {
    var u := Two(SentSleeping(1), CompleteWants(0), {0}, 0, 2, 3, {1}, {}, {0}, {});
    Moved(u, SentSleeping(1), CompleteWants(0));
    assert CollectStep(u, Two(SentSleeping(1), Completing(0), {0}, 0, 2, 3, {1}, {}, {0}, {}), 1);
  }

  /** Its completion wakes task 0, which waits at the same address. */
  lemma {:induction false} Wakes()
    ensures Next(Two(SentSleeping(1), Completing(0), {0}, 0, 2, 3, {1}, {}, {0}, {}),
                 Two(Finished(1), Completed, {}, 1, 2, 3, {1}, {}, {0}, {1}))
  {
    hide Next, Two, Woken;
    var s := Two(SentSleeping(1), Completing(0), {0}, 0, 2, 3, {1}, {}, {0}, {});
    WakesTask0(s);
    WokenTask0(s);
    Releases(s);
  }

  lemma {:induction false} Releases(s: State)
    requires 1 in s.pcs && s.pcs[1] == Completing(0) && Waiters(s, 0) == {0} && RequestsOf(s, {0}) == {1}
    ensures Next(s, Woken(s, {0}).(mistaken := s.mistaken + ({1} - {0})).Goto(1, Completed))
  {
    hide Waiters, RequestsOf, Woken;
    assert CollectStep(s, Woken(s, {0}).(mistaken := s.mistaken + ({1} - {0})).Goto(1, Completed), 1);
  }

  lemma {:induction false} WokenTask0(s: State)
    requires s == Two(SentSleeping(1), Completing(0), {0}, 0, 2, 3, {1}, {}, {0}, {})
    ensures Woken(s, {0}).(mistaken := s.mistaken + ({1} - {0})).Goto(1, Completed)
         == Two(Finished(1), Completed, {}, 1, 2, 3, {1}, {}, {0}, {1})
  {
    assert {} + ({1} - {0}) == {1} && s.pending - {0} == {} && |{0}| == 1;
    WokenPcs(s);
    hide Woken;
  }

  lemma {:induction false} WokenPcs(s: State)
    requires s.pcs == map[0 := SentSleeping(1), 1 := Completing(0)]
    ensures Woken(s, {0}).pcs[1 := Completed] == map[0 := Finished(1), 1 := Completed]
  {
  }

  lemma {:induction false} WakesTask0(s: State)
    requires s == Two(SentSleeping(1), Completing(0), {0}, 0, 2, 3, {1}, {}, {0}, {})
    ensures 1 in s.pcs && s.pcs[1] == Completing(0) && Waiters(s, 0) == {0} && RequestsOf(s, {0}) == {1}
  {
    assert s.pcs[0] == SentSleeping(1);
  }

  function Early(k: nat): State {
    match k
    case 0 => Two(Idle, Idle, {}, 0, 0, 6, {}, {}, {}, {})
    case 1 => Two(Wants, Idle, {}, 0, 0, 6, {}, {}, {}, {})
    case 2 => Two(Sending, Idle, {}, 0, 0, 6, {}, {}, {}, {})
    case 3 => Two(SentWants(0), Idle, {}, 0, 1, 3, {0}, {}, {}, {})
    case 4 => Two(SentBoth(0), Idle, {}, 0, 1, 3, {0}, {}, {}, {})
    case 5 => Two(SentDropped(0), Idle, {}, 0, 1, 3, {0}, {}, {}, {})
    case 6 => Two(SentDone(0), Idle, {}, 0, 1, 3, {0}, {}, {0}, {})
    case 7 => Two(Finished(0), Idle, {}, 0, 1, 3, {0}, {}, {0}, {})
    case 8 => Two(Idle, Idle, {}, 0, 1, 3, {0}, {}, {0}, {})
    case 9 => Two(Idle, Elsewhere, {}, 0, 1, 3, {0}, {}, {0}, {})
    case 10 => Two(Idle, Idle, {}, 1, 1, 3, {0}, {}, {0}, {})
    case 11 => Two(Wants, Idle, {}, 1, 1, 3, {0}, {}, {0}, {})
    case 12 => Two(Sending, Idle, {}, 1, 1, 3, {0}, {}, {0}, {})
    case 13 => Two(SentWants(1), Idle, {}, 1, 2, 0, {0, 1}, {}, {0}, {})
    case 14 => Two(SentBoth(1), Idle, {}, 1, 2, 0, {0, 1}, {}, {0}, {})
    case 15 => Two(SentDropped(1), Idle, {}, 1, 2, 0, {0, 1}, {}, {0}, {})
    case 16 => Two(SentDone(1), Idle, {0}, 0, 2, 0, {0, 1}, {}, {0}, {})
    case 17 => Two(SentSleeping(1), Idle, {0}, 0, 2, 0, {0, 1}, {}, {0}, {})
    case 18 => Two(SentSleeping(1), Idle, {0}, 0, 2, 0, {1}, {0}, {0}, {})
    case 19 => Two(SentSleeping(1), CollectWants, {0}, 0, 2, 0, {1}, {0}, {0}, {})
    case 20 => Two(SentSleeping(1), Collecting, {0}, 0, 2, 0, {1}, {0}, {0}, {})
    case 21 => Two(SentSleeping(1), CompleteWants(0), {0}, 0, 2, 3, {1}, {}, {0}, {})
    case 22 => Two(SentSleeping(1), Completing(0), {0}, 0, 2, 3, {1}, {}, {0}, {})
    case _ => Two(Finished(1), Completed, {}, 1, 2, 3, {1}, {}, {0}, {1})
  }

  lemma {:induction false} EarlyNext(k: nat)
    requires k < 23
    ensures Next(Early(k), Early(k + 1))
  {
    hide Next, Two;
    if k == 2 {
      Sends(0, 0, 3, {}, {});
      assert {} + {0} == {0};
    } else if k == 12 {
      Sends(1, 1, 0, {0}, {0});
      assert {0} + {1} == {0, 1};
    } else if k == 5 {
      Blocks(0, 1, 3, {0}, {});
      assert {} + {0} == {0};
    } else if k == 15 {
      Blocks(1, 2, 0, {0, 1}, {0});
    } else if k == 8 || k == 9 {
      Readies(1, 3, {0}, {0});
    } else if k < 8 {
      WalksFirst(k);
    } else if k < 17 {
      WalksSecond(k);
    } else if k == 17 {
      GivesBack();
    } else if k == 18 {
      GoesToCollect(1, {0}, 0, 2, 0, {1}, {0}, {0}, {});
    } else if k == 19 {
      Collects(1, {0}, 0, 2, 0, {1}, {0}, {0}, {});
    } else if k == 20 {
      TakesBack({0}, {1}, {0});
    } else if k == 21 {
      Locks();
    } else {
      Wakes();
    }
  }

  lemma {:induction false} WalksFirst(k: nat)
    requires k < 8 && k != 2 && k != 5
    ensures Next(Early(k), Early(k + 1))
  {
    hide Next, Two;
    var free, sent, flight := if k < 2 then 6 else 3, if k < 2 then 0 else 1, if k < 2 then {} else {0};
    var pcs := [Idle, Wants, Sending, SentWants(0), SentBoth(0), SentDropped(0), SentDone(0), Finished(0), Idle];
    Walks(pcs[k], pcs[k + 1], {}, 0, sent, free, flight, {}, if k < 6 then {} else {0}, {});
  }

  lemma {:induction false} WalksSecond(k: nat)
    requires 10 <= k < 17 && k != 12 && k != 15
    ensures Next(Early(k), Early(k + 1))
  {
    hide Next, Two;
    var free, sent, flight := if k < 12 then 3 else 0, if k < 12 then 1 else 2, if k < 12 then {0} else {0, 1};
    var pcs := [Idle, Wants, Sending, SentWants(1), SentBoth(1), SentDropped(1), SentDone(1), SentSleeping(1)];
    Walks(pcs[k - 10], pcs[k - 9], if k < 16 then {} else {0}, if k < 16 then 1 else 0, sent, free, flight, {}, {0}, {});
  }

  lemma {:induction false} EarlyFacts()
    ensures Initial(Early(0)) && FoundNobody(Early(5), Early(6), 0, 0)
    ensures Early(7).pcs == map[0 := Finished(0), 1 := Idle] && 0 in Early(7).flight
    ensures Early(23).pcs == map[0 := Finished(1), 1 := Completed] && 1 in Early(23).flight && Early(23).alone == {0}
  {
  }

  /** A request returns early when its task finds nobody, and the next one of the same task returns early
      although it found somebody: the completion of the first wakes it. */
  lemma {:induction false} RequestsReturnEarly() returns (run: seq<State>)
    ensures IsRun(run) && |run| == 24
    ensures run[7].pcs == map[0 := Finished(0), 1 := Idle] && 0 in run[7].flight && NobodyAt(run, 5, 0)
    ensures run[23].pcs == map[0 := Finished(1), 1 := Completed] && 1 in run[23].flight
    ensures forall k: nat :: k < 23 ==> !NobodyAt(run, k, 1)
  {
    hide Next, Early, FoundNobody, Initial;
    EarlyFacts();
    run := seq(24, k requires 0 <= k < 24 => Early(k));
    forall k: nat | k + 1 < |run| ensures NextAt(run, k) {
      EarlyNext(k);
    }
    AloneExact(run, 23, 1);
  }
}
