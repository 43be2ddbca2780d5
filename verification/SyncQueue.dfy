/** The bounded queue with scheduler integration, sync/queue.rs, as a machine whose steps are the atomic
    actions of the tasks that use it. The lock-free queue inside is an atomic bounded FIFO. */
module SyncQueues {
  import opened Bytes

  datatype Side = Enqueuer | Dequeuer {
    function Other(): Side {
      match this case Enqueuer => Dequeuer case Dequeuer => Enqueuer
    }
  }

  /** enqueue and dequeue, their timeout forms, and their try forms. */
  datatype Mode = Forever | Timed | Once

  datatype Pc =
    | Idle
    | Trying(side: Side, mode: Mode)        // about to use the inner queue
    | SwitchWants(side: Side, mode: Mode)   // has failed, wants the scheduler's lock
    | SwitchHeld(side: Side, mode: Mode)    // holds it, about to use the inner queue again
    | Refused(side: Side, mode: Mode)       // holds it, has failed again
    | Switched(side: Side, mode: Mode)      // holds it, is pending or not
    | Sleeping(side: Side, mode: Mode)      // has left the processor
    | LastTry(side: Side)                   // about to use the inner queue for the last time
    | GotIt(side: Side)                     // holds the lock, has used the inner queue
    | ReleaseWants(side: Side)              // has used the inner queue, wants the lock
    | Releasing(side: Side)                 // holds it
    | Released(side: Side)                  // holds it, and has woken the tasks of the other side
    | Elsewhere                             // holds it for other purposes
  {
    predicate HoldsQueue() {
      SwitchHeld? || Refused? || Switched? || GotIt? || Releasing? || Released? || Elsewhere?
    }

    /** Has made room or put something in, and has yet to wake the other side. */
    predicate InFlight(k: Side) {
      (GotIt? || ReleaseWants? || Releasing?) && side == k
    }

    predicate Asleep(k: Side) {
      (Switched? || Sleeping?) && side == k
    }

    /** Is in the middle of a use of the queue. */
    predicate InUse() {
      !Idle? && !Elsewhere?
    }

    /** Has used the inner queue. */
    predicate HasUsed() {
      GotIt? || ReleaseWants? || Releasing? || Released?
    }
  }

  /** A use of the queue: what it was given to put in, and what it has put in or taken out so far. */
  datatype Use<T> = Use(side: Side, mode: Mode, given: seq<T>, moved: seq<T>)

  datatype State<T> = State(
    capacity: nat,
    pcs: map<nat, Pc>,
    queue: Option<nat>,
    pending: set<nat>,
    items: seq<T>,
    sent: seq<T>,       // everything that was ever put in
    received: seq<T>,   // everything that was ever taken out
    uses: map<nat, Use<T>>    // the use that each task is in, or was in last
  ) {
    function Goto(t: nat, pc: Pc): State<T> {
      this.(pcs := pcs[t := pc])
    }

    predicate CanUse(k: Side) {
      match k case Enqueuer => |items| < capacity case Dequeuer => items != []
    }

    function Begin(t: nat, k: Side, m: Mode, given: seq<T>): State<T> {
      this.(uses := uses[t := Use(k, m, given, [])]).Goto(t, Trying(k, m))
    }

    /** With `x` among what the use of `t` has put in or taken out. */
    function Moved(t: nat, x: T): State<T>
      requires t in uses
    {
      this.(uses := uses[t := uses[t].(moved := uses[t].moved + [x])])
    }

    /** One use of the inner queue: the item that was given is put in, or the oldest one is taken out. */
    predicate MayMove(t: nat, k: Side) {
      CanUse(k) && t in uses && (k.Enqueuer? ==> |uses[t].given| == 1)
    }

    function Move(t: nat, k: Side): State<T>
      requires MayMove(t, k)
    {
      match k
      case Enqueuer =>
        var x := uses[t].given[0];
        Moved(t, x).(items := items + [x], sent := sent + [x])
      case Dequeuer =>
        Moved(t, items[0]).(items := items[1..], received := received + [items[0]])
    }
  }

  ghost predicate Initial<T>(s: State<T>) {
    && (forall t :: t in s.pcs ==> s.pcs[t] == Idle)
    && s.queue == None && s.pending == {} && s.items == s.sent == s.received == [] && s.uses == map[]
  }

  ghost predicate Attempt<T>(s: State<T>, s': State<T>, t: nat, k: Side, done: Pc, failed: Pc) {
    if s.CanUse(k) then s.MayMove(t, k) && s' == s.Move(t, k).Goto(t, done) else s' == s.Goto(t, failed)
  }

  /** A call: one to put an item in, or one to take one out. */
  ghost predicate Begins<T(!new)>(s: State<T>, s': State<T>, t: nat) {
    || (exists m, x :: s' == s.Begin(t, Enqueuer, m, [x]))
    || (exists m :: s' == s.Begin(t, Dequeuer, m, []))
  }

  /** Using the queue, and blocking. */
  ghost predicate UseStep<T(!new)>(s: State<T>, s': State<T>, t: nat)
    requires t in s.pcs
  {
    match s.pcs[t]
    case Idle => Begins(s, s', t) || (s.queue == None && s' == s.(queue := Some(t)).Goto(t, Elsewhere))
    case Elsewhere => s' == s.(queue := None).Goto(t, Idle)
    case Trying(k, m) => Attempt(s, s', t, k, ReleaseWants(k), if m.Once? then Idle else SwitchWants(k, m))
    case SwitchWants(k, m) => s.queue == None && s' == s.(queue := Some(t)).Goto(t, SwitchHeld(k, m))
    case SwitchHeld(k, m) => Attempt(s, s', t, k, GotIt(k), Refused(k, m))
    case Refused(k, m) => s' == s.(pending := s.pending + {t}).Goto(t, Switched(k, m)) || s' == s.Goto(t, Switched(k, m))
    case Switched(k, m) => s' == s.(queue := None).Goto(t, if t in s.pending then Sleeping(k, m) else Resumes(k, m))
    case LastTry(k) => Attempt(s, s', t, k, ReleaseWants(k), Idle)
    case _ => false
  }

  function Resumes(k: Side, m: Mode): Pc {
    if m.Forever? then Trying(k, m) else LastTry(k)
  }

  /** Waking the other side. */
  ghost predicate ReleaseStep<T>(s: State<T>, s': State<T>, t: nat)
    requires t in s.pcs
  {
    match s.pcs[t]
    case GotIt(k) => s' == s.(queue := None).Goto(t, ReleaseWants(k))
    case ReleaseWants(k) => s.queue == None && s' == s.(queue := Some(t)).Goto(t, Releasing(k))
    case Releasing(k) => s' == Woken(s, WaitersOf(s, k.Other())).Goto(t, Released(k))
    case Released(k) => s' == s.(queue := None).Goto(t, Idle)
    case _ => false
  }

  ghost function WaitersOf<T>(s: State<T>, k: Side): set<nat> {
    set t | t in s.pending && t in s.pcs && s.pcs[t].Asleep(k)
  }

  /** The tasks `ts` are runnable again. */
  ghost function Woken<T>(s: State<T>, ts: set<nat>): State<T> {
    s.(pending := s.pending - ts,
       pcs := map t | t in s.pcs :: if t in ts && s.pcs[t].Sleeping? then Resumes(s.pcs[t].side, s.pcs[t].mode) else s.pcs[t])
  }

  /** A timeout, or somebody else's release of a channel of the same number. */
  ghost predicate StrayWake<T(!new)>(s: State<T>, s': State<T>) {
    s.queue == None && exists ts :: ts <= s.pending && s' == Woken(s, ts)
  }

  ghost predicate Next<T(!new)>(s: State<T>, s': State<T>) {
    StrayWake(s, s') || exists t: nat :: t in s.pcs && (UseStep(s, s', t) || ReleaseStep(s, s', t))
  }

  // ---- what every step keeps ----

  ghost predicate LockOk<T>(s: State<T>) {
    forall t: nat :: t in s.pcs && s.pcs[t].HoldsQueue() <==> s.queue == Some(t)
  }

  /** A task that waits, or is about to. */
  predicate WillWait<T>(s: State<T>, t: nat, k: Side) {
    t in s.pcs && ((s.pcs[t].Refused? && s.pcs[t].side == k) || (t in s.pending && s.pcs[t].Asleep(k)))
  }

  ghost predicate SomeoneWakes<T>(s: State<T>, k: Side) {
    exists u: nat :: u in s.pcs && s.pcs[u].InFlight(k.Other())
  }

  ghost predicate WaitOk<T>(s: State<T>) {
    && (forall t: nat :: t in s.pending ==> t in s.pcs && (s.pcs[t].Switched? || s.pcs[t].Sleeping?))
    && (forall t: nat :: t in s.pcs && s.pcs[t].Sleeping? ==> t in s.pending)
    && (forall t: nat, k :: WillWait(s, t, k) ==> !s.CanUse(k) || SomeoneWakes(s, k))
  }

  /** First in, first out, nothing lost and nothing made up. */
  ghost predicate FifoOk<T>(s: State<T>) {
    s.sent == s.received + s.items && |s.items| <= s.capacity
  }

  /** What a task knows of its use. */
  ghost predicate UseOk<T>(s: State<T>, t: nat)
    requires t in s.pcs
  {
    var pc := s.pcs[t];
    pc.InUse() ==>
      && t in s.uses && s.uses[t].side == pc.side
      && (pc.Trying? || pc.SwitchWants? || pc.SwitchHeld? || pc.Refused? || pc.Switched? || pc.Sleeping? ==> s.uses[t].mode == pc.mode)
      && (pc.LastTry? ==> s.uses[t].mode.Timed?)
      && (pc.side.Enqueuer? ==> |s.uses[t].given| == 1)
      && |s.uses[t].moved| == (if pc.HasUsed() then 1 else 0)
      && (pc.HasUsed() && pc.side.Enqueuer? ==> s.uses[t].moved == s.uses[t].given)
      && (pc.SwitchWants? || pc.SwitchHeld? || pc.Refused? || pc.Switched? || pc.Sleeping? ==> !pc.mode.Once?)
  }

  ghost predicate UsesOk<T>(s: State<T>) {
    forall t: nat :: t in s.pcs ==> UseOk(s, t)
  }

  ghost predicate Inv<T>(s: State<T>) {
    LockOk(s) && WaitOk(s) && FifoOk(s) && UsesOk(s)
  }

  /** What a step of `t` other than the wake-up may do. */
  ghost predicate Effect<T>(s: State<T>, s': State<T>, t: nat) {
    && t in s.pcs && t in s'.pcs
    && (forall u: nat :: u != t ==> (u in s'.pcs <==> u in s.pcs) && (u in s.pcs ==> s'.pcs[u] == s.pcs[u]))
    && var pc, pc' := s.pcs[t], s'.pcs[t];
       && s'.queue == (if pc'.HoldsQueue() then Some(t) else if pc.HoldsQueue() then None else s.queue)
       && (pc'.HoldsQueue() && !pc.HoldsQueue() ==> s.queue == None)
       && (forall k :: s'.CanUse(k) && !s.CanUse(k) ==> pc'.InFlight(k.Other()))
       && (forall k :: pc.InFlight(k) ==> pc'.InFlight(k) || (pc.Releasing? && WaitersOf(s, k.Other()) == {}))
       && (pc'.Refused? ==> !s'.CanUse(pc'.side))
       && (s'.pending == s.pending || (s'.pending == s.pending + {t} && pc.Refused?))
       && (pc'.Sleeping? ==> t in s'.pending)
       && (t in s'.pending ==> (pc.Refused? || (pc.Switched? && t in s.pending)) && pc'.Asleep(pc.side))
       && FifoOk(s')
  }

  lemma {:induction false} LockKept<T>(s: State<T>, s': State<T>, t: nat)
    requires LockOk(s) && Effect(s, s', t)
    ensures LockOk(s')
  {
  }

  lemma {:induction false} WakerKept<T>(s: State<T>, s': State<T>, t: nat, k: Side)
    requires Effect(s, s', t) && (!s.CanUse(k) || SomeoneWakes(s, k))
    ensures !s'.CanUse(k) || SomeoneWakes(s', k) || (s.pcs[t].Releasing? && WaitersOf(s, k) == {})
  {
    if s'.pcs[t].InFlight(k.Other()) {
      assert SomeoneWakes(s', k);
    } else if s'.CanUse(k) {
      var u: nat :| u in s.pcs && s.pcs[u].InFlight(k.Other());
      assert u != t ==> s'.pcs[u].InFlight(k.Other());
      assert k.Other().Other() == k;
    }
  }

  lemma {:induction false} WaitKept<T>(s: State<T>, s': State<T>, t: nat)
    requires Inv(s) && Effect(s, s', t)
    ensures WaitOk(s')
  {
    hide SomeoneWakes, FifoOk;
    forall u: nat, k | WillWait(s', u, k) ensures !s'.CanUse(k) || SomeoneWakes(s', k) {
      if WillWait(s, u, k) {
        WakerKept(s, s', t, k);
        assert s.pcs[t].Releasing? && u != t && s.pcs[u].Refused? ==> s.queue == Some(u);
        assert u in s.pending && s.pcs[u].Asleep(k) ==> u in WaitersOf(s, k);
      }
    }
  }

  /** What a task knows at its place. */
  ghost predicate Local<T>(s: State<T>, t: nat)
    requires t in s.pcs
  {
    && (t in s.pending ==> s.pcs[t].Switched? || s.pcs[t].Sleeping?)
    && (s.pcs[t].HoldsQueue() <==> s.queue == Some(t))
    && (s.pcs[t].Refused? ==> t !in s.pending)
    && FifoOk(s)
  }

  lemma {:induction false} LocalOf<T>(s: State<T>, t: nat)
    requires Inv(s) && t in s.pcs
    ensures Local(s, t) && UseOk(s, t)
  {
  }

  lemma {:induction false} MoveFifo<T>(s: State<T>, t: nat, k: Side)
    requires FifoOk(s) && s.MayMove(t, k)
    ensures var s' := s.Move(t, k);
            && FifoOk(s') && s'.pcs == s.pcs && s'.queue == s.queue && s'.pending == s.pending && s'.capacity == s.capacity
            && (s'.CanUse(k) ==> s.CanUse(k))
  {
    match k {
      case Enqueuer =>
      case Dequeuer =>
        assert s.items == [s.items[0]] + s.items[1..];
    }
  }

  lemma {:induction false} AttemptEffect<T(!new)>(s: State<T>, s': State<T>, t: nat, k: Side, done: Pc, failed: Pc)
    requires t in s.pcs && Local(s, t) && Attempt(s, s', t, k, done, failed)
    requires s.pcs[t].Trying? || s.pcs[t].SwitchHeld? || s.pcs[t].LastTry?
    requires done == (if s.pcs[t].SwitchHeld? then GotIt(k) else ReleaseWants(k))
    requires if s.pcs[t].SwitchHeld? then failed.Refused? && failed.side == k else failed.Idle? || failed.SwitchWants?
    ensures Effect(s, s', t)
  {
    hide FifoOk;
    if s.CanUse(k) {
      MoveFifo(s, t, k);
      FifoGoto(s.Move(t, k), t, done);
    } else {
      FifoGoto(s, t, failed);
    }
  }

  lemma FifoGoto<T>(s: State<T>, t: nat, pc: Pc)
    requires FifoOk(s)
    ensures FifoOk(s.Goto(t, pc))
  {
  }

  lemma {:induction false} IdleEffect<T(!new)>(s: State<T>, s': State<T>, t: nat)
    requires t in s.pcs && Local(s, t) && UseStep(s, s', t) && (s.pcs[t].Idle? || s.pcs[t].Elsewhere?)
    ensures Effect(s, s', t)
  {
  }

  lemma {:induction false} BlockEffect<T(!new)>(s: State<T>, s': State<T>, t: nat)
    requires t in s.pcs && Local(s, t) && UseStep(s, s', t) && (s.pcs[t].SwitchWants? || s.pcs[t].Refused? || s.pcs[t].Switched?)
    ensures Effect(s, s', t)
  {
    hide Attempt, Begins;
  }

  lemma {:induction false} UseEffect<T(!new)>(s: State<T>, s': State<T>, t: nat)
    requires t in s.pcs && Local(s, t) && UseStep(s, s', t)
    ensures Effect(s, s', t)
  {
    hide Attempt, Begins, Effect, Local;
    match s.pcs[t]
    case Trying(k, m) => AttemptEffect(s, s', t, k, ReleaseWants(k), if m.Once? then Idle else SwitchWants(k, m));
    case SwitchHeld(k, m) => AttemptEffect(s, s', t, k, GotIt(k), Refused(k, m));
    case LastTry(k) => AttemptEffect(s, s', t, k, ReleaseWants(k), Idle);
    case Idle => IdleEffect(s, s', t);
    case Elsewhere => IdleEffect(s, s', t);
    case SwitchWants(_, _) => BlockEffect(s, s', t);
    case Refused(_, _) => BlockEffect(s, s', t);
    case Switched(_, _) => BlockEffect(s, s', t);
  }

  /** A step of `t` touches its own use only. */
  ghost predicate OwnUse<T>(s: State<T>, s': State<T>, t: nat) {
    && t in s.pcs && t in s'.pcs && UseOk(s', t)
    && (forall u: nat :: u != t ==> (u in s'.pcs <==> u in s.pcs) && (u in s.pcs ==> s'.pcs[u] == s.pcs[u]))
    && (forall u: nat :: u != t ==> (u in s'.uses <==> u in s.uses) && (u in s.uses ==> s'.uses[u] == s.uses[u]))
  }

  lemma {:induction false} AttemptOwn<T>(s: State<T>, s': State<T>, t: nat, k: Side, done: Pc, failed: Pc)
    requires t in s.pcs && UseOk(s, t) && Attempt(s, s', t, k, done, failed)
    requires (s.pcs[t].Trying? || s.pcs[t].SwitchHeld? || s.pcs[t].LastTry?) && s.pcs[t].side == k
    requires done == (if s.pcs[t].SwitchHeld? then GotIt(k) else ReleaseWants(k))
    requires match s.pcs[t]
             case Trying(_, m) => failed == if m.Once? then Idle else SwitchWants(k, m)
             case SwitchHeld(_, m) => failed == Refused(k, m)
             case _ => failed == Idle
    ensures OwnUse(s, s', t)
  {
  }

  lemma {:induction false} BeginOwn<T(!new)>(s: State<T>, s': State<T>, t: nat)
    requires t in s.pcs && s.pcs[t].Idle? && UseStep(s, s', t)
    ensures OwnUse(s, s', t)
  {
  }

  lemma {:induction false} RestOwn<T(!new)>(s: State<T>, s': State<T>, t: nat)
    requires t in s.pcs && UseOk(s, t) && UseStep(s, s', t)
    requires s.pcs[t].Elsewhere? || s.pcs[t].SwitchWants? || s.pcs[t].Refused? || s.pcs[t].Switched?
    ensures OwnUse(s, s', t)
  {
    hide Attempt, Begins;
  }

  lemma {:induction false} UseOwn<T(!new)>(s: State<T>, s': State<T>, t: nat)
    requires t in s.pcs && UseOk(s, t) && UseStep(s, s', t)
    ensures OwnUse(s, s', t)
  {
    hide Attempt, Begins, OwnUse;
    match s.pcs[t]
    case Idle => BeginOwn(s, s', t);
    case Elsewhere => RestOwn(s, s', t);
    case SwitchWants(_, _) => RestOwn(s, s', t);
    case Refused(_, _) => RestOwn(s, s', t);
    case Switched(_, _) => RestOwn(s, s', t);
    case Trying(k, m) => AttemptOwn(s, s', t, k, ReleaseWants(k), if m.Once? then Idle else SwitchWants(k, m));
    case SwitchHeld(k, m) => AttemptOwn(s, s', t, k, GotIt(k), Refused(k, m));
    case LastTry(k) => AttemptOwn(s, s', t, k, ReleaseWants(k), Idle);
  }

  lemma {:induction false} ReleaseOwn<T>(s: State<T>, s': State<T>, t: nat)
    requires t in s.pcs && UseOk(s, t) && ReleaseStep(s, s', t)
    ensures OwnUse(if s.pcs[t].Releasing? then Woken(s, WaitersOf(s, s.pcs[t].side.Other())) else s, s', t)
  {
  }

  lemma {:induction false} UsesKept<T>(s: State<T>, s': State<T>, t: nat)
    requires UsesOk(s) && OwnUse(s, s', t)
    ensures UsesOk(s')
  {
    forall u: nat | u in s'.pcs ensures UseOk(s', u) {
      assert u in s.pcs && UseOk(s, u);
    }
  }

  lemma {:induction false} WokenUses<T>(s: State<T>, ts: set<nat>)
    requires UsesOk(s)
    ensures UsesOk(Woken(s, ts))
  {
    forall u: nat | u in Woken(s, ts).pcs ensures UseOk(Woken(s, ts), u) {
      assert u in s.pcs && UseOk(s, u);
    }
  }

  lemma {:induction false} ReleaseEffect<T>(s: State<T>, s': State<T>, t: nat)
    requires t in s.pcs && Local(s, t) && ReleaseStep(s, s', t)
    ensures Effect(if s.pcs[t].Releasing? then Woken(s, WaitersOf(s, s.pcs[t].side.Other())) else s, s', t)
  {
  }

  lemma {:induction false} WokenKeeps<T>(s: State<T>, ts: set<nat>)
    requires Inv(s) && ts <= s.pending
    ensures Inv(Woken(s, ts))
  {
    hide LockOk, WaitOk, FifoOk, UsesOk, Woken;
    WokenUses(s, ts);
    WokenLocks(s, ts);
    WokenWaits(s, ts);
    WokenFifo(s, ts);
  }

  lemma {:induction false} WokenFifo<T>(s: State<T>, ts: set<nat>)
    requires FifoOk(s)
    ensures FifoOk(Woken(s, ts))
  {
  }

  lemma {:induction false} WokenLocks<T>(s: State<T>, ts: set<nat>)
    requires LockOk(s)
    ensures LockOk(Woken(s, ts))
  {
  }

  lemma {:induction false} WokenWaits<T>(s: State<T>, ts: set<nat>)
    requires WaitOk(s) && ts <= s.pending
    ensures WaitOk(Woken(s, ts))
  {
    var s' := Woken(s, ts);
    assert forall t: nat :: t in s.pcs ==> s'.pcs[t] == s.pcs[t] || (s'.pcs[t] == Resumes(s.pcs[t].side, s.pcs[t].mode) && s.pcs[t].Sleeping? && t in ts);
    assert forall t: nat, k :: WillWait(s', t, k) ==> WillWait(s, t, k);
    forall k | SomeoneWakes(s, k) ensures SomeoneWakes(s', k) {
      var u: nat :| u in s.pcs && s.pcs[u].InFlight(k.Other());
      assert s'.pcs[u] == s.pcs[u];
    }
  }

  lemma {:induction false} EffectKeeps<T>(s: State<T>, s': State<T>, t: nat)
    requires Inv(s) && Effect(s, s', t) && OwnUse(s, s', t)
    ensures Inv(s')
  {
    hide LockOk, WaitOk, FifoOk, UsesOk, OwnUse;
    UsesKept(s, s', t);
    LockKept(s, s', t);
    WaitKept(s, s', t);
  }

  /** Every step keeps the invariant. */
  lemma {:induction false} NextKeeps<T(!new)>(s: State<T>, s': State<T>)
    requires Inv(s) && Next(s, s')
    ensures Inv(s')
  {
    hide Inv, UseStep, ReleaseStep, Effect, Woken, Local, UseOk, OwnUse;
    if StrayWake(s, s') {
      var ts :| ts <= s.pending && s' == Woken(s, ts);
      WokenKeeps(s, ts);
    } else {
      var t: nat :| t in s.pcs && (UseStep(s, s', t) || ReleaseStep(s, s', t));
      LocalOf(s, t);
      if UseStep(s, s', t) {
        UseEffect(s, s', t);
        UseOwn(s, s', t);
        EffectKeeps(s, s', t);
      } else {
        ReleaseEffect(s, s', t);
        ReleaseOwn(s, s', t);
        if s.pcs[t].Releasing? {
          WokenKeeps(s, WaitersOf(s, s.pcs[t].side.Other()));
        }
        EffectKeeps(if s.pcs[t].Releasing? then Woken(s, WaitersOf(s, s.pcs[t].side.Other())) else s, s', t);
      }
    }
  }

  // ---- runs ----

  ghost predicate NextAt<T(!new)>(run: seq<State<T>>, i: nat)
    requires i + 1 < |run|
  {
    Next(run[i], run[i + 1])
  }

  ghost predicate IsRun<T(!new)>(run: seq<State<T>>) {
    run != [] && Initial(run[0]) && forall i: nat :: i + 1 < |run| ==> NextAt(run, i)
  }

  /** In every interleaving the queue is first in, first out and within its capacity; a task that waits
      for an item, or for room, waits for good reason or for somebody who is about to wake it. */
  lemma {:induction false} QueueSafe<T(!new)>(run: seq<State<T>>, i: nat)
    requires IsRun(run) && i < |run|
    ensures Inv(run[i])
    ensures run[i].sent == run[i].received + run[i].items && |run[i].items| <= run[i].capacity
    ensures WaitersOf(run[i], Dequeuer) != {} ==> run[i].items == [] || SomeoneWakes(run[i], Dequeuer)
    ensures WaitersOf(run[i], Enqueuer) != {} ==> |run[i].items| == run[i].capacity || SomeoneWakes(run[i], Enqueuer)
  {
    hide Next;
    if i > 0 {
      QueueSafe(run, i - 1);
      assert NextAt(run, i - 1);
      NextKeeps(run[i - 1], run[i]);
    }
    forall k: Side | WaitersOf(run[i], k) != {} ensures !run[i].CanUse(k) || SomeoneWakes(run[i], k) {
      var t :| t in WaitersOf(run[i], k);
      assert WillWait(run[i], t, k);
    }
  }

  // ---- the course of a use ----

  /** How the use of `t` and its place go on in one step: it stays the same call, moves at most one item, and ends after
      that or, unless it may wait forever, when it finds the queue unusable. */
  ghost predicate GoesOn<T>(s: State<T>, s': State<T>, t: nat)
    requires t in s.pcs && t in s'.pcs
  {
    s.pcs[t].InUse() && t in s.uses ==>
      && t in s'.uses && s'.uses[t] == s.uses[t].(moved := s'.uses[t].moved)
      && (s'.pcs[t].Idle? ==> s'.uses[t] == s.uses[t] && (s.pcs[t].Released? || (!s.uses[t].mode.Forever? && !s.pcs[t].HasUsed() && !s'.CanUse(s.uses[t].side))))
      && !s'.pcs[t].Elsewhere?
  }

  lemma {:induction false} OtherGoesOn<T>(s: State<T>, s': State<T>, u: nat, t: nat)
    requires t in s.pcs && u != t && OwnUse(s, s', u)
    ensures t in s'.pcs && GoesOn(s, s', t)
  {
  }

  lemma {:induction false} SelfGoesOn<T(!new)>(s: State<T>, s': State<T>, t: nat)
    requires t in s.pcs && t in s'.pcs && UseOk(s, t) && UseStep(s, s', t)
    ensures GoesOn(s, s', t)
  {
    hide Begins;
  }

  lemma {:induction false} UseGoesOn<T(!new)>(s: State<T>, s': State<T>, u: nat, t: nat)
    requires u in s.pcs && t in s.pcs && UseOk(s, t) && UseOk(s, u) && UseStep(s, s', u)
    ensures t in s'.pcs && GoesOn(s, s', t)
  {
    UseOwn(s, s', u);
    hide UseStep, UseOk, GoesOn;
    if u != t {
      OtherGoesOn(s, s', u, t);
    } else {
      SelfGoesOn(s, s', t);
    }
  }

  lemma {:induction false} ReleaseGoesOn<T>(s: State<T>, s': State<T>, u: nat, t: nat)
    requires u in s.pcs && t in s.pcs && UseOk(s, t) && ReleaseStep(s, s', u)
    ensures t in s'.pcs && GoesOn(s, s', t)
  {
  }

  lemma {:induction false} StepGoesOn<T(!new)>(s: State<T>, s': State<T>, t: nat)
    requires Inv(s) && Next(s, s') && t in s.pcs
    ensures t in s'.pcs && GoesOn(s, s', t)
  {
    hide UseStep, ReleaseStep, LockOk, WaitOk, FifoOk, UseOk;
    if !StrayWake(s, s') {
      hide GoesOn;
      var u: nat :| u in s.pcs && (UseStep(s, s', u) || ReleaseStep(s, s', u));
      if UseStep(s, s', u) {
        UseGoesOn(s, s', u, t);
      } else {
        ReleaseGoesOn(s, s', u, t);
      }
    }
  }

  ghost predicate InUseAt<T>(run: seq<State<T>>, t: nat, x: nat) {
    x < |run| && t in run[x].pcs && run[x].pcs[t].InUse() && t in run[x].uses
  }

  lemma {:induction false} SameCall<T(!new)>(run: seq<State<T>>, t: nat, i: nat, j: nat)
    requires IsRun(run) && i < j < |run| && (forall x: nat :: i <= x < j ==> InUseAt(run, t, x))
    requires InUseAt(run, t, i) && InUseAt(run, t, j - 1)
    ensures t in run[j].pcs && t in run[j].uses && run[j].uses[t] == run[i].uses[t].(moved := run[j].uses[t].moved)
    ensures GoesOn(run[j - 1], run[j], t)
  {
    hide IsRun, Next, Inv, GoesOn;
    if i + 1 < j {
      assert InUseAt(run, t, j - 2);
      SameCall(run, t, i, j - 1);
    }
    QueueSafe(run, j - 1);
    RunStep(run, j - 1);
    StepGoesOn(run[j - 1], run[j], t);
    CallStays(run[j - 1], run[j], t);
  }

  lemma RunStep<T(!new)>(run: seq<State<T>>, i: nat)
    requires IsRun(run) && i + 1 < |run|
    ensures Next(run[i], run[i + 1])
  {
    assert NextAt(run, i);
  }

  lemma CallStays<T>(s: State<T>, s': State<T>, t: nat)
    requires t in s.pcs && t in s'.pcs && s.pcs[t].InUse() && t in s.uses && GoesOn(s, s', t)
    ensures t in s'.uses && s'.uses[t] == s.uses[t].(moved := s'.uses[t].moved)
  {
  }

  /** In every interleaving a call that may wait forever returns only after it has moved exactly one item, the given one
      if it puts one in. Another call that returns without having moved one leaves a queue that is full or empty. */
  lemma {:induction false} UseEnds<T(!new)>(run: seq<State<T>>, t: nat, i: nat, j: nat)
    requires IsRun(run) && i < j < |run| && (forall x: nat :: i <= x < j ==> InUseAt(run, t, x))
    requires t in run[j].pcs && run[j].pcs[t].Idle?
    ensures t in run[i].uses && t in run[j].uses
    ensures var call, u := run[i].uses[t], run[j].uses[t];
            && u == call.(moved := u.moved)
            && (|u.moved| == 1 || (u.moved == [] && !u.mode.Forever?))
            && (u.moved != [] && u.side.Enqueuer? ==> u.moved == u.given)
            && (u.moved == [] ==> if u.side.Enqueuer? then |run[j].items| >= run[j].capacity else run[j].items == [])
  {
    assert InUseAt(run, t, i) && InUseAt(run, t, j - 1);
    SameCall(run, t, i, j);
    hide IsRun;
    QueueSafe(run, j - 1);
    hide LockOk, WaitOk, FifoOk;
    assert UseOk(run[j - 1], t);
  }

  /** The use of `t` has moved `y`. */
  ghost predicate MovedBy<T>(s: State<T>, s': State<T>, t: nat, y: T) {
    t in s.uses && s'.uses == s.uses[t := s.uses[t].(moved := s.uses[t].moved + [y])]
  }

  /** An item that is put in or taken out belongs to one use, and is recorded there. */
  ghost predicate Accounted<T(!new)>(s: State<T>, s': State<T>) {
    || (s'.sent == s.sent && s'.received == s.received && s'.items == s.items)
    || (exists t: nat, y :: MovedBy(s, s', t, y) && s.uses[t].side.Enqueuer? && s'.sent == s.sent + [y] && s'.received == s.received)
    || (exists t: nat, y :: MovedBy(s, s', t, y) && s.uses[t].side.Dequeuer? && s'.received == s.received + [y] && s'.sent == s.sent)
  }

  lemma {:induction false} AttemptAccounted<T(!new)>(s: State<T>, s': State<T>, t: nat, k: Side, done: Pc, failed: Pc)
    requires t in s.uses && s.uses[t].side == k && Attempt(s, s', t, k, done, failed)
    ensures Accounted(s, s')
  {
    if s.CanUse(k) {
      assert MovedBy(s, s', t, if k.Enqueuer? then s.uses[t].given[0] else s.items[0]);
    }
  }

  lemma {:induction false} UseAccounted<T(!new)>(s: State<T>, s': State<T>, t: nat)
    requires t in s.pcs && UseOk(s, t) && UseStep(s, s', t)
    ensures Accounted(s, s')
  {
    var pc := s.pcs[t];
    if pc.Trying? {
      AttemptAccounted(s, s', t, pc.side, ReleaseWants(pc.side), if pc.mode.Once? then Idle else SwitchWants(pc.side, pc.mode));
    } else if pc.SwitchHeld? {
      AttemptAccounted(s, s', t, pc.side, GotIt(pc.side), Refused(pc.side, pc.mode));
    } else if pc.LastTry? {
      AttemptAccounted(s, s', t, pc.side, ReleaseWants(pc.side), Idle);
    } else {
      hide Attempt, MovedBy;
    }
  }

  lemma {:induction false} MoveExact<T(!new)>(s: State<T>, s': State<T>)
    requires Inv(s) && Next(s, s')
    ensures Accounted(s, s')
  {
    hide LockOk, WaitOk, FifoOk, UseOk, UseStep, Accounted;
    if StrayWake(s, s') {
      NothingMoved(s, s');
    } else {
      var t: nat :| t in s.pcs && (UseStep(s, s', t) || ReleaseStep(s, s', t));
      if UseStep(s, s', t) {
        UseAccounted(s, s', t);
      } else {
        NothingMoved(s, s');
      }
    }
  }

  lemma NothingMoved<T(!new)>(s: State<T>, s': State<T>)
    requires s'.sent == s.sent && s'.received == s.received && s'.items == s.items
    ensures Accounted(s, s')
  {
  }

  // ---- progress ----

  /** Task `t` is in the middle of something and can go on. */
  ghost predicate CanStep<T(!new)>(s: State<T>, t: nat) {
    t in s.pcs && !s.pcs[t].Idle? && exists s' :: UseStep(s, s', t) || ReleaseStep(s, s', t)
  }

  lemma {:induction false} TryCan<T(!new)>(s: State<T>, t: nat)
    requires t in s.pcs && UseOk(s, t) && (s.pcs[t].Trying? || s.pcs[t].SwitchHeld? || s.pcs[t].LastTry?)
    ensures CanStep(s, t)
  {
    hide ReleaseStep;
    var k := s.pcs[t].side;
    var done := if s.pcs[t].SwitchHeld? then GotIt(k) else ReleaseWants(k);
    var failed := match s.pcs[t]
      case Trying(_, m) => if m.Once? then Idle else SwitchWants(k, m)
      case SwitchHeld(_, m) => Refused(k, m)
      case _ => Idle;
    var s' := if s.CanUse(k) then s.Move(t, k).Goto(t, done) else s.Goto(t, failed);
    assert UseStep(s, s', t);
  }

  lemma {:induction false} BlockCan<T(!new)>(s: State<T>, t: nat)
    requires t in s.pcs && (s.pcs[t].Elsewhere? || s.pcs[t].Refused? || s.pcs[t].Switched? || (s.pcs[t].SwitchWants? && s.queue == None))
    ensures CanStep(s, t)
  {
    hide ReleaseStep, Attempt, Begins;
    match s.pcs[t]
    case Elsewhere => assert UseStep(s, s.(queue := None).Goto(t, Idle), t);
    case SwitchWants(k, m) => assert UseStep(s, s.(queue := Some(t)).Goto(t, SwitchHeld(k, m)), t);
    case Refused(k, m) => assert UseStep(s, s.Goto(t, Switched(k, m)), t);
    case Switched(k, m) => assert UseStep(s, s.(queue := None).Goto(t, if t in s.pending then Sleeping(k, m) else Resumes(k, m)), t);
  }

  lemma {:induction false} ReleaseCan<T(!new)>(s: State<T>, t: nat)
    requires t in s.pcs && (s.pcs[t].GotIt? || s.pcs[t].Releasing? || s.pcs[t].Released? || (s.pcs[t].ReleaseWants? && s.queue == None))
    ensures CanStep(s, t)
  {
    hide UseStep, Woken, WaitersOf;
    match s.pcs[t]
    case GotIt(k) => assert ReleaseStep(s, s.(queue := None).Goto(t, ReleaseWants(k)), t);
    case ReleaseWants(k) => assert ReleaseStep(s, s.(queue := Some(t)).Goto(t, Releasing(k)), t);
    case Releasing(k) => assert ReleaseStep(s, Woken(s, WaitersOf(s, k.Other())).Goto(t, Released(k)), t);
    case Released(k) => assert ReleaseStep(s, s.(queue := None).Goto(t, Idle), t);
  }

  /** Whoever holds the scheduler's lock can go on, and everybody else who is awake when it is free. */
  lemma {:induction false} AwakeCan<T(!new)>(s: State<T>, t: nat)
    requires t in s.pcs && UseOk(s, t) && !s.pcs[t].Idle? && !s.pcs[t].Sleeping? && (s.pcs[t].HoldsQueue() || s.queue == None)
    ensures CanStep(s, t)
  {
    hide CanStep, UseOk;
    var pc := s.pcs[t];
    if pc.Trying? || pc.SwitchHeld? || pc.LastTry? {
      TryCan(s, t);
    } else if pc.Elsewhere? || pc.Refused? || pc.Switched? || pc.SwitchWants? {
      BlockCan(s, t);
    } else {
      ReleaseCan(s, t);
    }
  }

  /** There is no deadlock: in every interleaving, when nobody who is in the middle of something can go on, all those
      tasks sleep, to take something out of an empty queue or to put something into a full one. */
  lemma {:induction false} NoDeadlock<T(!new)>(run: seq<State<T>>, i: nat, t: nat)
    requires IsRun(run) && i < |run| && (forall u: nat :: !CanStep(run[i], u)) && t in run[i].pcs && !run[i].pcs[t].Idle?
    ensures t in run[i].pending && run[i].pcs[t].Sleeping?
    ensures if run[i].pcs[t].side.Enqueuer? then |run[i].items| == run[i].capacity else run[i].items == []
  {
    QueueSafe(run, i);
    hide IsRun, CanStep, UseOk;
    var s := run[i];
    if s.queue.Some? {
      assert s.queue.value in s.pcs;
      AwakeCan(s, s.queue.value);
    }
    if !s.pcs[t].Sleeping? {
      AwakeCan(s, t);
    }
    var k := s.pcs[t].side;
    assert t in WaitersOf(s, k);
    if SomeoneWakes(s, k) {
      var u: nat :| u in s.pcs && s.pcs[u].InFlight(k.Other());
      AwakeCan(s, u);
    }
  }
}
