/** Requests to a block device and their completion, devices/virtio/block.rs, as a machine whose steps are
    the atomic actions of the requesting tasks, of the interrupt handler and of the device. */
module BlockRequests {
  import opened Bytes

  /** A request takes a header, a body and a footer. */
  const NEEDED: nat := 3

  const SECTOR_SIZE: nat := 512

  /** Block::check_capacity; sector numbers do not wrap. */
  predicate CheckCapacity(sector: nat, len: nat, capacity: nat) {
    sector + ((if len > 1 then len else 1) - 1) / SECTOR_SIZE < capacity
  }

  /** A transfer is let through exactly when each sector that holds a byte of it is on the device; an
      empty one counts as one byte. */
  lemma {:induction false} CapacityExact(sector: nat, len: nat, capacity: nat)
    ensures CheckCapacity(sector, len, capacity)
       <==> forall i: nat :: (i < len || i == 0) ==> SectorOf(sector, i) < capacity
  {
    var last := (if len > 1 then len else 1) - 1;
    assert SectorOf(sector, last) == sector + last / SECTOR_SIZE;
    forall i: nat | i < len || i == 0 ensures SectorOf(sector, i) <= SectorOf(sector, last) {
      assert i <= last;
    }
  }

  /** The sector of byte `i` of a transfer. */
  function SectorOf(sector: nat, i: nat): nat {
    sector + i / 512
  }

  datatype Pc =
    | Idle
    | Wants                    // wants the lock of the request queue
    | Sending                  // holds it, about to transfer
    | FullWants                // has found too few descriptors, wants the scheduler's lock
    | FullBoth                 // holds both locks
    | FullDropped              // has let go of the lock of the request queue
    | FullDone                 // is pending on the queue channel or not, holds the scheduler's lock
    | FullSleeping
    | SentWants(r: nat)        // has transferred request `r` and notified the device, wants the scheduler's lock
    | SentBoth(r: nat)
    | SentDropped(r: nat)
    | SentDone(r: nat)         // is pending on the completion channel or not
    | SentSleeping(r: nat)
    | Finished(r: nat)         // the request has returned
    | CollectWants             // the handler: wants the lock of the request queue
    | Collecting               // holds it
    | CompleteWants(r: nat)    // has taken back the chain of `r`, wants the scheduler's lock
    | Completing(r: nat)       // holds both locks
    | Completed                // has released the completion channel of the request
    | RoomWants                // has taken back all chains
    | RoomReleasing            // holds both locks
    | RoomReleased             // has released the queue channel
    | CollectDone              // holds the lock of the request queue only
    | Elsewhere                // holds the scheduler's lock for other purposes
  {
    predicate HoldsSpin() {
      || Sending? || FullWants? || FullBoth? || SentWants? || SentBoth?
      || Collecting? || CompleteWants? || Completing? || Completed? || RoomWants? || RoomReleasing? || RoomReleased? || CollectDone?
    }

    predicate HoldsQueue() {
      || FullBoth? || FullDropped? || FullDone? || SentBoth? || SentDropped? || SentDone?
      || Completing? || Completed? || RoomReleasing? || RoomReleased? || Elsewhere?
    }

    /** Has sent a request that has not returned. */
    predicate Sent() {
      SentWants? || SentBoth? || SentDropped? || SentDone? || SentSleeping?
    }

    /** Has asked for a request that is not sent yet. */
    predicate Asking() {
      Wants? || Sending? || FullWants? || FullBoth? || FullDropped? || FullDone? || FullSleeping?
    }

    /** Runs the handler. */
    predicate Collects() {
      || CollectWants? || Collecting? || CompleteWants? || Completing? || Completed?
      || RoomWants? || RoomReleasing? || RoomReleased? || CollectDone?
    }

    predicate MayBePending() {
      FullDone? || FullSleeping? || SentDone? || SentSleeping?
    }

    /** Takes back `x`. */
    predicate Completes(x: nat) {
      (CompleteWants? || Completing?) && r == x
    }

    /** Has yet to release the queue channel after taking chains back. */
    predicate MakesRoom() {
      Collecting? || CompleteWants? || Completing? || Completed? || RoomWants? || RoomReleasing?
    }
  }

  /** Requests are numbered in the order in which they are sent. A completion channel is the address of
      the request's footer on the stack of its task. */
  datatype State = State(
    addr: nat -> nat,     // the completion channel of each request
    pcs: map<nat, Pc>,
    spin: Option<nat>,
    queue: Option<nat>,
    pending: set<nat>,
    others: nat,          // runnable tasks that are not running
    sent: nat,            // requests sent so far
    free: nat,            // descriptors
    flight: set<nat>,     // requests with the device
    used: set<nat>,       // requests that the device has given back
    alone: set<nat>,      // requests whose task found nobody to switch to when it blocked
    mistaken: set<nat>    // requests whose task was woken by the completion of another one
  ) {
    function Goto(t: nat, pc: Pc): State {
      this.(pcs := pcs[t := pc])
    }

    function Spin(t: Option<nat>): State {
      this.(spin := t)
    }

    function Queue(t: Option<nat>): State {
      this.(queue := t)
    }
  }

  ghost predicate Initial(s: State) {
    && (forall t :: t in s.pcs ==> s.pcs[t] == Idle)
    && s.spin == None && s.queue == None && s.pending == {} && s.sent == 0
    && s.flight == {} && s.used == {} && s.alone == {} && s.mistaken == {}
  }

  /** Another task runs while this one is pending; without another one this one goes on. */
  function Suspended(s: State, t: nat): State {
    if s.others > 0 then s.(pending := s.pending + {t}, others := s.others - 1) else s
  }

  /** Task `t` has a footer on its stack that the device or the handler may refer to. */
  predicate Live(s: State, t: nat, r: nat) {
    t in s.pcs && s.pcs[t].Sent() && s.pcs[t].r == r
  }

  /** Footers that are on stacks at the same time have different addresses. */
  ghost predicate FreshAddress(s: State, t: nat) {
    forall u: nat, x: nat :: Live(s, u, x) && u != t ==> s.addr(x) != s.addr(s.sent)
  }

  ghost predicate RequestStep(s: State, s': State, t: nat)
    requires t in s.pcs
  {
    match s.pcs[t]
    case Idle => s' == s.Goto(t, Wants) || s' == s.Goto(t, CollectWants) || (s.queue == None && s' == s.Queue(Some(t)).Goto(t, Elsewhere))
    case Elsewhere => s' == s.(others := s'.others).Queue(None).Goto(t, Idle)
    case Finished(_) => s' == s.Goto(t, Idle)
    case Wants => s.spin == None && s' == s.Spin(Some(t)).Goto(t, Sending)
    case Sending =>
      if s.free < NEEDED then s' == s.Goto(t, FullWants)
      else FreshAddress(s, t) && s' == s.(free := s.free - NEEDED, flight := s.flight + {s.sent}, sent := s.sent + 1).Goto(t, SentWants(s.sent))
    case _ => false
  }

  /** Blocking on the queue channel. */
  ghost predicate FullStep(s: State, s': State, t: nat)
    requires t in s.pcs
  {
    match s.pcs[t]
    case FullWants => s.queue == None && s' == s.Queue(Some(t)).Goto(t, FullBoth)
    case FullBoth => s' == s.Spin(None).Goto(t, FullDropped)
    case FullDropped => s' == Suspended(s, t).Goto(t, FullDone)
    case FullDone => s' == s.Queue(None).Goto(t, if t in s.pending then FullSleeping else Wants)
    case _ => false
  }

  /** Blocking on the completion channel. */
  ghost predicate SentStep(s: State, s': State, t: nat)
    requires t in s.pcs
  {
    match s.pcs[t]
    case SentWants(r) => s.queue == None && s' == s.Queue(Some(t)).Goto(t, SentBoth(r))
    case SentBoth(r) => s' == s.Spin(None).Goto(t, SentDropped(r))
    case SentDropped(r) => s' == Suspended(s, t).(alone := if s.others == 0 then s.alone + {r} else s.alone).Goto(t, SentDone(r))
    case SentDone(r) => s' == s.Queue(None).Goto(t, if t in s.pending then SentSleeping(r) else Finished(r))
    case _ => false
  }

  ghost predicate BlockStep(s: State, s': State, t: nat)
    requires t in s.pcs
  {
    FullStep(s, s', t) || SentStep(s, s', t)
  }

  ghost predicate CollectStep(s: State, s': State, t: nat)
    requires t in s.pcs
  {
    match s.pcs[t]
    case CollectWants => s.spin == None && s' == s.Spin(Some(t)).Goto(t, Collecting)
    case Collecting =>
      if s.used == {} then s' == s.Goto(t, RoomWants)
      else exists r :: r in s.used && s' == s.(used := s.used - {r}, free := s.free + NEEDED).Goto(t, CompleteWants(r))
    case CompleteWants(r) => s.queue == None && s' == s.Queue(Some(t)).Goto(t, Completing(r))
    case Completing(r) => s' == Woken(s, Waiters(s, r)).(mistaken := s.mistaken + (RequestsOf(s, Waiters(s, r)) - {r})).Goto(t, Completed)
    case Completed => s' == s.Queue(None).Goto(t, Collecting)
    case RoomWants => s.queue == None && s' == s.Queue(Some(t)).Goto(t, RoomReleasing)
    case RoomReleasing => s' == Woken(s, RoomWaiters(s)).Goto(t, RoomReleased)
    case RoomReleased => s' == s.Queue(None).Goto(t, CollectDone)
    case CollectDone => s' == s.Spin(None).Goto(t, Idle)
    case _ => false
  }

  /** The tasks that are pending on the completion channel of `r`. */
  ghost function Waiters(s: State, r: nat): set<nat> {
    set t | t in s.pending && t in s.pcs && (s.pcs[t].SentDone? || s.pcs[t].SentSleeping?) && s.addr(s.pcs[t].r) == s.addr(r)
  }

  ghost function RequestsOf(s: State, ts: set<nat>): set<nat> {
    set t | t in ts && t in s.pcs && s.pcs[t].Sent() :: s.pcs[t].r
  }

  /** The tasks that are pending on the queue channel. */
  ghost function RoomWaiters(s: State): set<nat> {
    set t | t in s.pending && t in s.pcs && (s.pcs[t].FullDone? || s.pcs[t].FullSleeping?)
  }

  /** The tasks `ts` are runnable again. */
  ghost function Woken(s: State, ts: set<nat>): State {
    s.(pending := s.pending - ts,
       others := s.others + |ts|,
       pcs := map t | t in s.pcs :: if t in ts then AfterWake(s.pcs[t]) else s.pcs[t])
  }

  function AfterWake(pc: Pc): Pc {
    match pc case FullSleeping => Wants case SentSleeping(r) => Finished(r) case _ => pc
  }

  /** The device gives requests back in any order. */
  ghost predicate DeviceStep(s: State, s': State) {
    exists r :: r in s.flight && s' == s.(flight := s.flight - {r}, used := s.used + {r})
  }

  ghost predicate Next(s: State, s': State) {
    DeviceStep(s, s') || exists t: nat :: t in s.pcs && (RequestStep(s, s', t) || BlockStep(s, s', t) || CollectStep(s, s', t))
  }

  // ---- what every step keeps ----

  ghost predicate LocksOk(s: State) {
    && (forall t: nat :: t in s.pcs && s.pcs[t].HoldsSpin() <==> s.spin == Some(t))
    && (forall t: nat :: t in s.pcs && s.pcs[t].HoldsQueue() <==> s.queue == Some(t))
  }

  /** Somebody takes back `r`. */
  ghost predicate BeingCompleted(s: State, r: nat) {
    exists u: nat :: u in s.pcs && s.pcs[u].Completes(r)
  }

  /** The request is with the device, given back, or being completed. */
  ghost predicate Outstanding(s: State, r: nat) {
    r in s.flight || r in s.used || BeingCompleted(s, r)
  }

  /** A request that has not returned is outstanding, and its task waits for it unless it found nobody to
      switch to. */
  ghost predicate LiveOk(s: State, t: nat, r: nat)
    requires Live(s, t, r)
  {
    && Outstanding(s, r) && r !in s.mistaken
    && (r in s.alone <==> s.pcs[t].SentDone? && t !in s.pending)
  }

  ghost predicate LivesOk(s: State) {
    && (forall t: nat, r: nat :: Live(s, t, r) ==> LiveOk(s, t, r))
    && (forall t: nat, u: nat, x: nat, y: nat :: Live(s, t, x) && Live(s, u, y) && s.addr(x) == s.addr(y) ==> t == u)
  }

  ghost predicate HasLive(s: State, r: nat) {
    exists t: nat :: Live(s, t, r)
  }

  /** Each outstanding request is in one place, and it has not returned unless its task was alone or
      mistaken. */
  ghost predicate PlacesOk(s: State) {
    && (forall r: nat :: Outstanding(s, r) ==> HasLive(s, r) || r in s.alone || r in s.mistaken)
    && (forall r: nat :: r in s.flight ==> r !in s.used && !BeingCompleted(s, r))
    && (forall r: nat :: r in s.used ==> !BeingCompleted(s, r))
  }

  ghost predicate NumbersOk(s: State) {
    && (forall r: nat :: Outstanding(s, r) || r in s.alone || r in s.mistaken ==> r < s.sent)
    && (s.alone == {} ==> s.mistaken == {})
  }

  /** An earlier request at the same address whose task was alone. */
  ghost predicate FromAlone(s: State, r: nat) {
    exists x: nat :: x < r && s.addr(x) == s.addr(r) && x in s.alone
  }

  /** A task is woken by mistake only because of such a request; the address of a footer is not given away
      while the footer is there. */
  ghost predicate OriginsOk(s: State) {
    && (forall t: nat, r: nat, x: nat :: Live(s, t, r) && r < x < s.sent ==> s.addr(x) != s.addr(r))
    && (forall r: nat :: r in s.mistaken ==> FromAlone(s, r))
  }

  /** A request that has returned is over. */
  ghost predicate FinishedOk(s: State) {
    forall t: nat :: t in s.pcs && s.pcs[t].Finished? ==> s.pcs[t].r < s.sent && !HasLive(s, s.pcs[t].r)
  }

  ghost predicate PendingOk(s: State) {
    && (forall t: nat :: t in s.pending ==> t in s.pcs && s.pcs[t].MayBePending())
    && (forall t: nat :: t in s.pcs && (s.pcs[t].FullSleeping? || s.pcs[t].SentSleeping?) ==> t in s.pending)
  }

  /** A task that waits for descriptors, or is about to. */
  predicate WaitsForRoom(s: State, t: nat) {
    t in s.pcs && (s.pcs[t].FullWants? || s.pcs[t].FullBoth? || s.pcs[t].FullDropped? || (t in s.pending && (s.pcs[t].FullDone? || s.pcs[t].FullSleeping?)))
  }

  ghost predicate RoomOk(s: State) {
    (exists t: nat :: WaitsForRoom(s, t)) ==> s.free < NEEDED || exists u: nat :: u in s.pcs && s.pcs[u].MakesRoom()
  }

  ghost predicate RequestsOk(s: State) {
    LivesOk(s) && PlacesOk(s) && NumbersOk(s) && FinishedOk(s) && OriginsOk(s)
  }

  ghost predicate Inv(s: State) {
    LocksOk(s) && RequestsOk(s) && PendingOk(s) && RoomOk(s)
  }

  /** A step of `t` that wakes nobody leaves the others where they are. */
  ghost predicate OnlyMoves(s: State, s': State, t: nat) {
    && t in s.pcs && t in s'.pcs && s'.addr == s.addr
    && (forall u: nat :: u != t ==> (u in s'.pcs <==> u in s.pcs) && (u in s.pcs ==> s'.pcs[u] == s.pcs[u]))
  }

  /** What it may do to the locks. */
  ghost predicate LockEffect(s: State, s': State, t: nat)
    requires t in s.pcs && t in s'.pcs
  {
    var pc, pc' := s.pcs[t], s'.pcs[t];
    && s'.spin == (if pc'.HoldsSpin() then Some(t) else if pc.HoldsSpin() then None else s.spin)
    && (pc'.HoldsSpin() && !pc.HoldsSpin() ==> s.spin == None)
    && s'.queue == (if pc'.HoldsQueue() then Some(t) else if pc.HoldsQueue() then None else s.queue)
    && (pc'.HoldsQueue() && !pc.HoldsQueue() ==> s.queue == None)
  }

  /** What it may do to the pending tasks and the descriptors. */
  ghost predicate WaitEffect(s: State, s': State, t: nat)
    requires t in s.pcs && t in s'.pcs
  {
    var pc, pc' := s.pcs[t], s'.pcs[t];
    && (s'.pending == s.pending || (s'.pending == s.pending + {t} && (pc.FullDropped? || pc.SentDropped?)))
    && (t in s'.pending ==> pc'.MayBePending())
    && (pc'.FullSleeping? || pc'.SentSleeping? ==> t in s'.pending)
    && (WaitsForRoom(s', t) ==> WaitsForRoom(s, t) || s'.free < NEEDED)
    && (pc.MakesRoom() ==> pc'.MakesRoom())
    && (s'.free <= s.free || pc'.MakesRoom())
  }

  ghost predicate Effect(s: State, s': State, t: nat) {
    OnlyMoves(s, s', t) && LockEffect(s, s', t) && WaitEffect(s, s', t)
  }

  lemma {:induction false} LocksKept(s: State, s': State, t: nat)
    requires LocksOk(s) && Effect(s, s', t)
    ensures LocksOk(s')
  {
  }

  lemma {:induction false} PendingKept(s: State, s': State, t: nat)
    requires PendingOk(s) && Effect(s, s', t)
    ensures PendingOk(s')
  {
  }

  lemma {:induction false} RoomKept(s: State, s': State, t: nat)
    requires RoomOk(s) && Effect(s, s', t)
    ensures RoomOk(s')
  {
    if w: nat :| WaitsForRoom(s', w) {
      if s'.pcs[t].MakesRoom() || s'.free < NEEDED {
      } else {
        assert WaitsForRoom(s, w);
        var u: nat :| u in s.pcs && s.pcs[u].MakesRoom();
        assert s'.pcs[u].MakesRoom();
      }
    }
  }

  lemma {:induction false} CompletedElsewhere(s: State, s': State, t: nat, r: nat)
    requires Effect(s, s', t)
    ensures BeingCompleted(s', r) <==> s'.pcs[t].Completes(r) || exists u: nat :: u != t && u in s.pcs && s.pcs[u].Completes(r)
    ensures BeingCompleted(s, r) <==> s.pcs[t].Completes(r) || exists u: nat :: u != t && u in s.pcs && s.pcs[u].Completes(r)
  {
    if BeingCompleted(s', r) {
      var u: nat :| u in s'.pcs && s'.pcs[u].Completes(r);
      assert u != t ==> s.pcs[u].Completes(r);
    }
    if u: nat :| u != t && u in s.pcs && s.pcs[u].Completes(r) {
      assert s'.pcs[u].Completes(r);
    }
  }

  // ---- steps that move requests ----

  /** The request of `t` stays where it is. */
  ghost predicate Quiet(s: State, s': State, t: nat) {
    && Effect(s, s', t)
    && s'.flight == s.flight && s'.used == s.used && s'.sent == s.sent && s'.mistaken == s.mistaken && s'.alone == s.alone
    && var pc, pc' := s.pcs[t], s'.pcs[t];
       && !pc'.Finished? && pc'.Sent() == pc.Sent() && (pc.Sent() ==> pc'.r == pc.r)
       && (forall r: nat :: pc'.Completes(r) <==> pc.Completes(r))
       && (pc.Sent() ==> ((pc'.SentDone? && t !in s'.pending) <==> (pc.SentDone? && t !in s.pending)))
  }

  /** It is sent. */
  ghost predicate Sends(s: State, s': State, t: nat) {
    && Effect(s, s', t) && FreshAddress(s, t)
    && s.pcs[t].Sending? && s'.pcs[t] == SentWants(s.sent)
    && s'.flight == s.flight + {s.sent} && s'.used == s.used && s'.sent == s.sent + 1
    && s'.mistaken == s.mistaken && s'.alone == s.alone && s'.pending == s.pending
  }

  /** Its task finds nobody to switch to. */
  ghost predicate GoesOn(s: State, s': State, t: nat) {
    && Effect(s, s', t)
    && s.pcs[t].SentDropped? && s'.pcs[t] == SentDone(s.pcs[t].r) && t !in s'.pending && s'.pending == s.pending
    && s'.flight == s.flight && s'.used == s.used && s'.sent == s.sent && s'.mistaken == s.mistaken
    && s'.alone == s.alone + {s.pcs[t].r}
  }

  /** It returns without having been woken. */
  ghost predicate Returns(s: State, s': State, t: nat) {
    && Effect(s, s', t)
    && s.pcs[t].SentDone? && t !in s.pending && s'.pcs[t] == Finished(s.pcs[t].r) && s'.pending == s.pending
    && s'.flight == s.flight && s'.used == s.used && s'.sent == s.sent && s'.mistaken == s.mistaken && s'.alone == s.alone
  }

  /** The handler takes one back. */
  ghost predicate Takes(s: State, s': State, t: nat) {
    && Effect(s, s', t)
    && s.pcs[t].Collecting? && s'.pcs[t].CompleteWants? && s'.pcs[t].r in s.used
    && s'.flight == s.flight && s'.used == s.used - {s'.pcs[t].r} && s'.sent == s.sent
    && s'.mistaken == s.mistaken && s'.alone == s.alone && s'.pending == s.pending
  }

  ghost predicate Moves(s: State, s': State, t: nat) {
    Quiet(s, s', t) || Sends(s, s', t) || GoesOn(s, s', t) || Returns(s, s', t) || Takes(s, s', t)
  }

  /** The outstanding requests after a step of `t`. */
  lemma {:induction false} OutstandingAfter(s: State, s': State, t: nat, r: nat)
    requires Moves(s, s', t) && PlacesOk(s)
    ensures Outstanding(s', r) <==> Outstanding(s, r) || (Sends(s, s', t) && r == s.sent)
    ensures r in s'.used ==> r in s.used
    ensures BeingCompleted(s', r) <==> BeingCompleted(s, r) || (Takes(s, s', t) && r == s'.pcs[t].r)
  {
    CompletedElsewhere(s, s', t, r);
    hide BeingCompleted;
  }

  lemma {:induction false} LiveAfter(s: State, s': State, t: nat, u: nat, r: nat)
    requires Moves(s, s', t)
    ensures Live(s', u, r) <==> (Live(s, u, r) && !(Returns(s, s', t) && u == t)) || (Sends(s, s', t) && u == t && r == s.sent)
  {
  }

  lemma {:induction false} NumbersKept(s: State, s': State, t: nat)
    requires NumbersOk(s) && PlacesOk(s) && LivesOk(s) && Moves(s, s', t)
    ensures NumbersOk(s')
  {
    hide Outstanding, PlacesOk, BeingCompleted;
    assert GoesOn(s, s', t) ==> Live(s, t, s.pcs[t].r) && LiveOk(s, t, s.pcs[t].r);
    forall r: nat ensures Outstanding(s', r) || r in s'.alone || r in s'.mistaken ==> r < s'.sent {
      OutstandingAfter(s, s', t, r);
    }
  }

  lemma {:induction false} PlacesKept(s: State, s': State, t: nat)
    requires NumbersOk(s) && PlacesOk(s) && LivesOk(s) && Moves(s, s', t)
    ensures PlacesOk(s')
  {
    hide Moves, Outstanding, BeingCompleted, HasLive, LivesOk, NumbersOk;
    forall r: nat
      ensures Outstanding(s', r) ==> HasLive(s', r) || r in s'.alone || r in s'.mistaken
      ensures r in s'.flight ==> r !in s'.used && !BeingCompleted(s', r)
      ensures r in s'.used ==> !BeingCompleted(s', r)
    {
      PlaceKept(s, s', t, r);
      ApartKept(s, s', t, r);
    }
  }

  lemma {:induction false} ApartKept(s: State, s': State, t: nat, r: nat)
    requires NumbersOk(s) && PlacesOk(s) && Moves(s, s', t)
    ensures r in s'.flight ==> r !in s'.used && !BeingCompleted(s', r)
    ensures r in s'.used ==> !BeingCompleted(s', r)
  {
    OutstandingAfter(s, s', t, r);
    assert r in s.used || BeingCompleted(s, r) ==> Outstanding(s, r) && r < s.sent;
    hide BeingCompleted, HasLive, Outstanding, Effect;
  }

  lemma {:induction false} PlaceKept(s: State, s': State, t: nat, r: nat)
    requires PlacesOk(s) && LivesOk(s) && Moves(s, s', t)
    ensures Outstanding(s', r) ==> HasLive(s', r) || r in s'.alone || r in s'.mistaken
  {
    OutstandingAfter(s, s', t, r);
    hide Outstanding;
    if Sends(s, s', t) && r == s.sent {
      LiveAfter(s, s', t, t, r);
      assert Live(s', t, r);
    } else if HasLive(s, r) {
      var u: nat :| Live(s, u, r);
      LiveAfter(s, s', t, u, r);
      assert LiveOk(s, u, r);
    }
  }

  lemma {:induction false} LiveOkKept(s: State, s': State, t: nat, u: nat, r: nat)
    requires NumbersOk(s) && PlacesOk(s) && LivesOk(s) && Moves(s, s', t) && Live(s', u, r)
    ensures LiveOk(s', u, r)
  {
    OutstandingAfter(s, s', t, r);
    LiveAfter(s, s', t, u, r);
    assert Live(s, u, r) ==> LiveOk(s, u, r);
    assert Live(s, t, r) ==> LiveOk(s, t, r);
    hide Outstanding, PlacesOk, BeingCompleted;
    if u != t && s.pcs[t].Sent() {
      assert Live(s, t, s.pcs[t].r);
      assert LiveOk(s, t, s.pcs[t].r);
      assert r != s.pcs[t].r;
    }
  }

  lemma {:induction false} LivesKept(s: State, s': State, t: nat)
    requires NumbersOk(s) && PlacesOk(s) && LivesOk(s) && Moves(s, s', t)
    ensures LivesOk(s')
  {
    forall u: nat, r: nat | Live(s', u, r) ensures LiveOk(s', u, r) {
      LiveOkKept(s, s', t, u, r);
    }
    forall u: nat, v: nat, x: nat, y: nat | Live(s', u, x) && Live(s', v, y) && s'.addr(x) == s'.addr(y) ensures u == v {
      LiveAfter(s, s', t, u, x);
      LiveAfter(s, s', t, v, y);
    }
  }

  lemma {:induction false} FinishedKept(s: State, s': State, t: nat)
    requires NumbersOk(s) && LivesOk(s) && FinishedOk(s) && Moves(s, s', t)
    ensures FinishedOk(s')
  {
    forall u: nat | u in s'.pcs && s'.pcs[u].Finished? ensures s'.pcs[u].r < s'.sent && !HasLive(s', s'.pcs[u].r) {
      var r := s'.pcs[u].r;
      if u == t && s.pcs[t].Sent() {
        assert Live(s, t, r) && LiveOk(s, t, r);
      } else {
        assert u in s.pcs && s.pcs[u] == Finished(r) && !HasLive(s, r) && r < s.sent;
      }
      forall v: nat ensures !Live(s', v, r) {
        LiveAfter(s, s', t, v, r);
      }
    }
  }

  lemma {:induction false} OriginsKept(s: State, s': State, t: nat)
    requires OriginsOk(s) && Moves(s, s', t)
    ensures OriginsOk(s')
  {
    forall u: nat, r: nat, x: nat | Live(s', u, r) && r < x < s'.sent ensures s'.addr(x) != s'.addr(r) {
      LiveAfter(s, s', t, u, r);
    }
    forall r: nat | r in s'.mistaken ensures FromAlone(s', r) {
      assert FromAlone(s, r);
    }
  }

  lemma {:induction false} EffectKeeps(s: State, s': State, t: nat)
    requires Inv(s) && Moves(s, s', t)
    ensures Inv(s')
  {
    assert Effect(s, s', t);
    hide LocksOk, LivesOk, PlacesOk, NumbersOk, FinishedOk, OriginsOk, PendingOk, RoomOk, Effect, Moves;
    OriginsKept(s, s', t);
    FinishedKept(s, s', t);
    LocksKept(s, s', t);
    LivesKept(s, s', t);
    PlacesKept(s, s', t);
    NumbersKept(s, s', t);
    PendingKept(s, s', t);
    RoomKept(s, s', t);
  }

  /** What a task knows at its place. */
  ghost predicate Local(s: State, t: nat)
    requires t in s.pcs
  {
    && (s.pcs[t].HoldsSpin() <==> s.spin == Some(t))
    && (s.pcs[t].HoldsQueue() <==> s.queue == Some(t))
    && (t in s.pending ==> s.pcs[t].MayBePending())
    && (s.pcs[t].FullSleeping? || s.pcs[t].SentSleeping? ==> t in s.pending)
  }

  lemma {:induction false} LocalOf(s: State, t: nat)
    requires Inv(s) && t in s.pcs
    ensures Local(s, t)
  {
    hide RequestsOk, RoomOk;
  }

  lemma {:induction false} RequestOthers(s: State, s': State, t: nat)
    requires t in s.pcs && RequestStep(s, s', t)
    ensures OnlyMoves(s, s', t)
  {
    hide FreshAddress;
  }

  lemma {:induction false} RequestLocks(s: State, s': State, t: nat)
    requires t in s.pcs && Local(s, t) && RequestStep(s, s', t)
    ensures t in s'.pcs && LockEffect(s, s', t)
  {
    hide FreshAddress;
  }

  lemma {:induction false} RequestWaits(s: State, s': State, t: nat)
    requires t in s.pcs && Local(s, t) && RequestStep(s, s', t)
    ensures t in s'.pcs && WaitEffect(s, s', t)
  {
    hide FreshAddress;
  }

  lemma {:induction false} RequestMoves(s: State, s': State, t: nat)
    requires t in s.pcs && Local(s, t) && RequestStep(s, s', t)
    ensures Moves(s, s', t)
  {
    RequestOthers(s, s', t);
    RequestLocks(s, s', t);
    RequestWaits(s, s', t);
    hide FreshAddress, LockEffect, WaitEffect;
  }

  lemma {:induction false} FullOthers(s: State, s': State, t: nat)
    requires t in s.pcs && FullStep(s, s', t)
    ensures OnlyMoves(s, s', t)
  {
  }

  lemma {:induction false} SentOthers(s: State, s': State, t: nat)
    requires t in s.pcs && SentStep(s, s', t)
    ensures OnlyMoves(s, s', t)
  {
  }

  lemma {:induction false} BlockOthers(s: State, s': State, t: nat)
    requires t in s.pcs && BlockStep(s, s', t)
    ensures OnlyMoves(s, s', t)
  {
    hide FullStep, SentStep;
    if FullStep(s, s', t) { FullOthers(s, s', t); } else { SentOthers(s, s', t); }
  }

  lemma {:induction false} FullLocks(s: State, s': State, t: nat)
    requires t in s.pcs && Local(s, t) && FullStep(s, s', t)
    ensures t in s'.pcs && LockEffect(s, s', t)
  {
  }

  lemma {:induction false} SentLocks(s: State, s': State, t: nat)
    requires t in s.pcs && Local(s, t) && SentStep(s, s', t)
    ensures t in s'.pcs && LockEffect(s, s', t)
  {
  }

  lemma {:induction false} BlockLocks(s: State, s': State, t: nat)
    requires t in s.pcs && Local(s, t) && BlockStep(s, s', t)
    ensures t in s'.pcs && LockEffect(s, s', t)
  {
    hide FullStep, SentStep;
    if FullStep(s, s', t) { FullLocks(s, s', t); } else { SentLocks(s, s', t); }
  }

  lemma {:induction false} FullWaits(s: State, s': State, t: nat)
    requires t in s.pcs && Local(s, t) && FullStep(s, s', t)
    ensures t in s'.pcs && WaitEffect(s, s', t)
  {
  }

  lemma {:induction false} SentWaits(s: State, s': State, t: nat)
    requires t in s.pcs && Local(s, t) && SentStep(s, s', t)
    ensures t in s'.pcs && WaitEffect(s, s', t)
  {
  }

  lemma {:induction false} BlockWaits(s: State, s': State, t: nat)
    requires t in s.pcs && Local(s, t) && BlockStep(s, s', t)
    ensures t in s'.pcs && WaitEffect(s, s', t)
  {
    hide FullStep, SentStep;
    if FullStep(s, s', t) { FullWaits(s, s', t); } else { SentWaits(s, s', t); }
  }

  lemma {:induction false} BlockMoves(s: State, s': State, t: nat)
    requires t in s.pcs && Local(s, t) && BlockStep(s, s', t)
    ensures Moves(s, s', t)
  {
    BlockOthers(s, s', t);
    BlockLocks(s, s', t);
    BlockWaits(s, s', t);
    hide FreshAddress, LockEffect, WaitEffect;
  }

  lemma {:induction false} CollectOthers(s: State, s': State, t: nat)
    requires t in s.pcs && CollectStep(s, s', t)
    requires !s.pcs[t].Completing? && !s.pcs[t].RoomReleasing?
    ensures OnlyMoves(s, s', t)
  {
    hide FreshAddress;
  }

  lemma {:induction false} CollectLocks(s: State, s': State, t: nat)
    requires t in s.pcs && Local(s, t) && CollectStep(s, s', t)
    requires !s.pcs[t].Completing? && !s.pcs[t].RoomReleasing?
    ensures t in s'.pcs && LockEffect(s, s', t)
  {
    hide FreshAddress;
  }

  lemma {:induction false} CollectWaits(s: State, s': State, t: nat)
    requires t in s.pcs && Local(s, t) && CollectStep(s, s', t)
    requires !s.pcs[t].Completing? && !s.pcs[t].RoomReleasing?
    ensures t in s'.pcs && WaitEffect(s, s', t)
  {
    hide FreshAddress;
  }

  lemma {:induction false} CollectMoves(s: State, s': State, t: nat)
    requires t in s.pcs && Local(s, t) && CollectStep(s, s', t)
    requires !s.pcs[t].Completing? && !s.pcs[t].RoomReleasing?
    ensures Moves(s, s', t)
  {
    CollectOthers(s, s', t);
    CollectLocks(s, s', t);
    CollectWaits(s, s', t);
    hide FreshAddress, LockEffect, WaitEffect;
  }

  // ---- completions ----

  /** While the handler releases the completion channel of `r`, the tasks with requests under way sleep. */
  lemma {:induction false} LiveSleep(s: State, t: nat, u: nat)
    requires Inv(s) && t in s.pcs && s.pcs[t].Completing? && u in s.pcs && s.pcs[u].Sent()
    ensures s.pcs[u].SentSleeping? && u in s.pending && u != t
  {
    hide RequestsOk, RoomOk;
    assert s.spin == Some(t) && s.queue == Some(t);
    assert s.pcs[u].HoldsSpin() ==> s.spin == Some(u);
    assert s.pcs[u].HoldsQueue() ==> s.queue == Some(u);
  }

  /** The release of the completion channel of a request that has not returned wakes its task, and nobody
      else. */
  lemma {:induction false} CompletionFindsTask(s: State, t: nat, u: nat)
    requires Inv(s) && t in s.pcs && s.pcs[t].Completing? && Live(s, u, s.pcs[t].r)
    ensures Waiters(s, s.pcs[t].r) == {u} && s.pcs[u] == SentSleeping(s.pcs[t].r)
  {
    hide LocksOk, PendingOk, RoomOk, PlacesOk, NumbersOk;
    LiveSleep(s, t, u);
    forall v | v in Waiters(s, s.pcs[t].r) ensures v == u {
      assert Live(s, v, s.pcs[v].r);
    }
  }

  /** `t` has released the completion channel of `r`, on which the tasks `ws` slept. */
  ghost predicate Completion(s: State, s': State, t: nat, r: nat, ws: set<nat>) {
    && t in s.pcs && s.pcs[t] == Completing(r) && t !in ws && ws <= s.pending
    && (forall u: nat :: u in ws ==> u in s.pcs && s.pcs[u].SentSleeping?)
    && (forall u: nat :: u in s'.pcs <==> u in s.pcs)
    && (forall u: nat :: u in s.pcs ==> s'.pcs[u] == if u == t then Completed else if u in ws then Finished(s.pcs[u].r) else s.pcs[u])
    && s' == s.(pcs := s'.pcs, pending := s.pending - ws, others := s'.others, mistaken := s.mistaken + (RequestsOf(s, ws) - {r}))
  }

  lemma {:induction false} CompletingIs(s: State, s': State, t: nat)
    requires Inv(s) && t in s.pcs && s.pcs[t].Completing? && CollectStep(s, s', t)
    ensures Completion(s, s', t, s.pcs[t].r, Waiters(s, s.pcs[t].r))
  {
    hide Inv, RequestsOf;
    var r := s.pcs[t].r;
    forall u | u in Waiters(s, r) ensures s.pcs[u].SentSleeping? && u != t {
      LiveSleep(s, t, u);
    }
  }

  /** Only the holder of the lock takes requests back. */
  lemma {:induction false} OneCompletes(s: State, t: nat, x: nat)
    requires LocksOk(s) && t in s.pcs && s.pcs[t].Completing?
    ensures BeingCompleted(s, x) <==> x == s.pcs[t].r
  {
    assert s.pcs[t].Completes(s.pcs[t].r) && s.spin == Some(t);
    if BeingCompleted(s, x) {
      var u: nat :| u in s.pcs && s.pcs[u].Completes(x);
      assert s.pcs[u].HoldsSpin();
    }
  }

  lemma {:induction false} CompletionOutstanding(s: State, s': State, t: nat, r: nat, ws: set<nat>, x: nat)
    requires LocksOk(s) && PlacesOk(s) && Completion(s, s', t, r, ws)
    ensures Outstanding(s', x) <==> Outstanding(s, x) && x != r
    ensures !BeingCompleted(s', x) && Outstanding(s, r)
  {
    OneCompletes(s, t, x);
    OneCompletes(s, t, r);
    forall u: nat | u in s'.pcs ensures !s'.pcs[u].Completes(x) {
      assert u in s.pcs && s.pcs[u].HoldsSpin() ==> s.spin == Some(u);
      assert s.spin == Some(t);
    }
  }

  lemma CompletionLive(s: State, s': State, t: nat, r: nat, ws: set<nat>, u: nat, x: nat)
    requires Completion(s, s', t, r, ws)
    ensures Live(s', u, x) <==> Live(s, u, x) && u !in ws
  {
  }

  lemma {:induction false} CompletionRest(s: State, s': State, t: nat, r: nat, ws: set<nat>)
    requires LocksOk(s) && PendingOk(s) && Completion(s, s', t, r, ws)
    ensures LocksOk(s') && PendingOk(s') && RoomOk(s')
  {
    assert s'.pcs[t].MakesRoom();
  }

  lemma {:induction false} CompletionLiveOk(s: State, s': State, t: nat, u: nat, x: nat)
    requires Inv(s) && t in s.pcs && s.pcs[t].Completing? && Completion(s, s', t, s.pcs[t].r, Waiters(s, s.pcs[t].r))
    requires Live(s', u, x)
    ensures LiveOk(s', u, x) && x != s.pcs[t].r
  {
    hide LocksOk, PlacesOk, NumbersOk, PendingOk, RoomOk, Outstanding;
    var r, ws := s.pcs[t].r, Waiters(s, s.pcs[t].r);
    CompletionLive(s, s', t, r, ws, u, x);
    if x == r {
      CompletionFindsTask(s, t, u);
    }
    CompletionOutstanding(s, s', t, r, ws, x);
    assert LiveOk(s, u, x);
    forall w | w in ws ensures s.pcs[w].r != x {
      assert Live(s, w, s.pcs[w].r);
    }
  }

  lemma {:induction false} CompletionPlace(s: State, s': State, t: nat, r: nat, ws: set<nat>, x: nat)
    requires LocksOk(s) && PlacesOk(s) && Completion(s, s', t, r, ws)
    ensures Outstanding(s', x) ==> HasLive(s', x) || x in s'.alone || x in s'.mistaken
  {
    CompletionOutstanding(s, s', t, r, ws, x);
    hide LocksOk, Outstanding;
    if Outstanding(s', x) && HasLive(s, x) {
      var u: nat :| Live(s, u, x);
      CompletionLive(s, s', t, r, ws, u, x);
      assert u in ws ==> x in RequestsOf(s, ws);
    }
  }

  lemma {:induction false} CompletionPlaces(s: State, s': State, t: nat, r: nat, ws: set<nat>)
    requires LocksOk(s) && PlacesOk(s) && Completion(s, s', t, r, ws)
    ensures PlacesOk(s')
  {
    forall x: nat
      ensures Outstanding(s', x) ==> HasLive(s', x) || x in s'.alone || x in s'.mistaken
      ensures !BeingCompleted(s', x)
    {
      CompletionOutstanding(s, s', t, r, ws, x);
      CompletionPlace(s, s', t, r, ws, x);
    }
  }

  /** A task is woken by mistake only after another one found nobody to switch to. */
  lemma {:induction false} CompletionNumbers(s: State, s': State, t: nat)
    requires Inv(s) && t in s.pcs && s.pcs[t].Completing? && Completion(s, s', t, s.pcs[t].r, Waiters(s, s.pcs[t].r))
    ensures NumbersOk(s')
  {
    hide LocksOk, PendingOk, RoomOk, Outstanding;
    var r, ws := s.pcs[t].r, Waiters(s, s.pcs[t].r);
    forall x: nat ensures Outstanding(s', x) || x in s'.alone || x in s'.mistaken ==> x < s'.sent {
      CompletionOutstanding(s, s', t, r, ws, x);
      if x in RequestsOf(s, ws) {
        var w :| w in ws && w in s.pcs && s.pcs[w].Sent() && s.pcs[w].r == x;
        assert Live(s, w, x) && LiveOk(s, w, x);
      }
    }
    if s.alone == {} {
      CompletionOutstanding(s, s', t, r, ws, r);
      var u: nat :| Live(s, u, r);
      CompletionFindsTask(s, t, u);
      assert RequestsOf(s, ws) - {r} == {};
    }
  }

  lemma {:induction false} CompletionFinished(s: State, s': State, t: nat, r: nat, ws: set<nat>)
    requires NumbersOk(s) && LivesOk(s) && FinishedOk(s) && Completion(s, s', t, r, ws)
    ensures FinishedOk(s')
  {
    forall u: nat | u in s'.pcs && s'.pcs[u].Finished? ensures s'.pcs[u].r < s'.sent && !HasLive(s', s'.pcs[u].r) {
      var x := s'.pcs[u].r;
      if u in ws {
        assert Live(s, u, x) && LiveOk(s, u, x);
      } else {
        assert u in s.pcs && s.pcs[u] == Finished(x) && !HasLive(s, x) && x < s.sent;
      }
      forall v: nat ensures !Live(s', v, x) {
        CompletionLive(s, s', t, r, ws, v, x);
      }
    }
  }

  /** Whoever is woken by the completion of another request waits at the address of one that was alone. */
  lemma {:induction false} MistakenOrigin(s: State, t: nat, w: nat)
    requires Inv(s) && t in s.pcs && s.pcs[t].Completing? && w in Waiters(s, s.pcs[t].r) && s.pcs[w].r != s.pcs[t].r
    ensures FromAlone(s, s.pcs[w].r)
  {
    hide LocksOk, PendingOk, RoomOk, FinishedOk;
    var r, y := s.pcs[t].r, s.pcs[w].r;
    assert s.pcs[t].Completes(r) && BeingCompleted(s, r) && Outstanding(s, r);
    assert Live(s, w, y);
    if u: nat :| Live(s, u, r) {
      CompletionFindsTask(s, t, u);
    }
    assert r < y;
    if r in s.mistaken {
      var x: nat :| x < r && s.addr(x) == s.addr(r) && x in s.alone;
      assert x < y;
    }
  }

  lemma {:induction false} CompletionOrigins(s: State, s': State, t: nat)
    requires Inv(s) && t in s.pcs && s.pcs[t].Completing? && Completion(s, s', t, s.pcs[t].r, Waiters(s, s.pcs[t].r))
    ensures OriginsOk(s')
  {
    hide LocksOk, PlacesOk, LivesOk, NumbersOk, FinishedOk, PendingOk, RoomOk, Waiters;
    var r, ws := s.pcs[t].r, Waiters(s, s.pcs[t].r);
    forall u: nat, y: nat, x: nat | Live(s', u, y) && y < x < s'.sent ensures s'.addr(x) != s'.addr(y) {
      CompletionLive(s, s', t, r, ws, u, y);
    }
    forall y: nat | y in s'.mistaken ensures FromAlone(s', y) {
      if y !in s.mistaken {
        var w :| w in ws && w in s.pcs && s.pcs[w].Sent() && s.pcs[w].r == y;
        MistakenOrigin(s, t, w);
      }
      assert FromAlone(s, y);
    }
  }

  lemma {:induction false} CompletingKeeps(s: State, s': State, t: nat)
    requires Inv(s) && t in s.pcs && s.pcs[t].Completing? && CollectStep(s, s', t)
    ensures Inv(s')
  {
    hide LocksOk, PlacesOk, NumbersOk, FinishedOk, OriginsOk, PendingOk, RoomOk, CollectStep, LiveOk, Waiters;
    var r, ws := s.pcs[t].r, Waiters(s, s.pcs[t].r);
    CompletingIs(s, s', t);
    CompletionRest(s, s', t, r, ws);
    CompletionPlaces(s, s', t, r, ws);
    CompletionNumbers(s, s', t);
    CompletionFinished(s, s', t, r, ws);
    CompletionOrigins(s, s', t);
    forall u: nat, x: nat | Live(s', u, x) ensures LiveOk(s', u, x) && Live(s, u, x) {
      CompletionLiveOk(s, s', t, u, x);
      CompletionLive(s, s', t, r, ws, u, x);
    }
  }

  /** `t` has woken everybody who waits for descriptors. */
  ghost predicate RoomMade(s: State, s': State, t: nat) {
    && t in s.pcs && s.pcs[t] == RoomReleasing
    && (forall u: nat :: u in s'.pcs <==> u in s.pcs)
    && s'.pcs[t] == RoomReleased
    && (forall u: nat :: u in s.pcs && u != t ==> s'.pcs[u] == if s.pcs[u].FullSleeping? && u in s.pending then Wants else s.pcs[u])
    && s' == s.(pcs := s'.pcs, pending := s'.pending, others := s'.others)
    && (forall u: nat :: u in s'.pending <==> u in s.pending && !(u in s.pcs && (s.pcs[u].FullDone? || s.pcs[u].FullSleeping?)))
  }

  lemma {:induction false} RoomIs(s: State, s': State, t: nat)
    requires t in s.pcs && s.pcs[t].RoomReleasing? && CollectStep(s, s', t)
    ensures RoomMade(s, s', t)
  {
  }

  /** The requests are where they were. */
  ghost predicate SameRequests(s: State, s': State) {
    && s'.flight == s.flight && s'.used == s.used && s'.sent == s.sent && s'.alone == s.alone && s'.mistaken == s.mistaken && s'.addr == s.addr
    && (forall u: nat, x: nat :: Live(s', u, x) <==> Live(s, u, x))
    && (forall u: nat, x: nat :: Live(s, u, x) ==> s'.pcs[u].SentDone? == s.pcs[u].SentDone? && (u in s'.pending <==> u in s.pending))
    && (forall x: nat :: BeingCompleted(s', x) <==> BeingCompleted(s, x))
    && (forall u: nat :: u in s'.pcs && s'.pcs[u].Finished? ==> u in s.pcs && s.pcs[u] == s'.pcs[u])
  }

  lemma {:induction false} SameRequestsOk(s: State, s': State)
    requires RequestsOk(s) && SameRequests(s, s')
    ensures RequestsOk(s')
  {
    hide BeingCompleted, Live;
    assert forall x: nat :: Outstanding(s', x) <==> Outstanding(s, x);
    hide Outstanding;
    assert forall x: nat :: HasLive(s', x) <==> HasLive(s, x);
    hide HasLive;
    assert forall u: nat, x: nat :: Live(s', u, x) ==> (LiveOk(s', u, x) <==> LiveOk(s, u, x));
  }

  lemma {:induction false} RoomSent(s: State, s': State, t: nat)
    requires RoomMade(s, s', t)
    ensures SameRequests(s, s')
  {
    forall x: nat ensures BeingCompleted(s', x) <==> BeingCompleted(s, x) {
      if BeingCompleted(s, x) {
        var u: nat :| u in s.pcs && s.pcs[u].Completes(x);
        assert s'.pcs[u].Completes(x);
      }
    }
  }

  lemma {:induction false} RoomRest(s: State, s': State, t: nat)
    requires LocksOk(s) && PendingOk(s) && RoomMade(s, s', t)
    ensures LocksOk(s') && PendingOk(s') && RoomOk(s')
  {
    forall w: nat ensures !WaitsForRoom(s', w) {
      assert w in s.pcs && s.pcs[w].HoldsSpin() ==> s.spin == Some(w);
      assert w in s.pcs && s.pcs[w].HoldsQueue() ==> s.queue == Some(w);
    }
  }

  lemma {:induction false} RoomKeeps(s: State, s': State, t: nat)
    requires Inv(s) && t in s.pcs && s.pcs[t].RoomReleasing? && CollectStep(s, s', t)
    ensures Inv(s')
  {
    RoomIs(s, s', t);
    hide LocksOk, RequestsOk, PendingOk, RoomOk, CollectStep, SameRequests;
    RoomSent(s, s', t);
    SameRequestsOk(s, s');
    RoomRest(s, s', t);
  }

  lemma {:induction false} DeviceRequests(s: State, s': State)
    requires RequestsOk(s) && DeviceStep(s, s')
    ensures RequestsOk(s')
  {
    assert forall x: nat :: BeingCompleted(s', x) <==> BeingCompleted(s, x);
    hide BeingCompleted;
    assert forall x: nat :: Outstanding(s', x) <==> Outstanding(s, x);
    assert forall u: nat, x: nat :: Live(s', u, x) <==> Live(s, u, x);
    hide Outstanding, Live;
    assert forall x: nat :: HasLive(s', x) <==> HasLive(s, x);
  }

  lemma {:induction false} DeviceKeeps(s: State, s': State)
    requires Inv(s) && DeviceStep(s, s')
    ensures Inv(s')
  {
    hide RequestsOk;
    DeviceRequests(s, s');
    assert forall t: nat :: WaitsForRoom(s', t) <==> WaitsForRoom(s, t);
  }

  /** Every step keeps the invariant. */
  lemma {:induction false} NextKeeps(s: State, s': State)
    requires Inv(s) && Next(s, s')
    ensures Inv(s')
  {
    hide Inv, RequestStep, BlockStep, CollectStep, Moves, Local, DeviceStep;
    if DeviceStep(s, s') {
      DeviceKeeps(s, s');
    } else {
      var t: nat :| t in s.pcs && (RequestStep(s, s', t) || BlockStep(s, s', t) || CollectStep(s, s', t));
      LocalOf(s, t);
      if RequestStep(s, s', t) {
        RequestMoves(s, s', t);
        EffectKeeps(s, s', t);
      } else if BlockStep(s, s', t) {
        BlockMoves(s, s', t);
        EffectKeeps(s, s', t);
      } else if s.pcs[t].Completing? {
        CompletingKeeps(s, s', t);
      } else if s.pcs[t].RoomReleasing? {
        RoomKeeps(s, s', t);
      } else {
        CollectMoves(s, s', t);
        EffectKeeps(s, s', t);
      }
    }
  }

  // ---- what a return means ----

  /** The task of request `r` blocked and found nobody to switch to. */
  ghost predicate FoundNobody(s: State, s': State, t: nat, r: nat) {
    t in s.pcs && s.pcs[t] == SentDropped(r) && s.others == 0 && t in s'.pcs && s'.pcs[t] == SentDone(r)
  }

  ghost predicate Alone(s: State, s': State, r: nat) {
    exists t: nat :: FoundNobody(s, s', t, r)
  }

  lemma {:induction false} AloneStep(s: State, s': State, r: nat)
    requires Next(s, s')
    ensures r in s'.alone <==> r in s.alone || Alone(s, s', r)
  {
    if !DeviceStep(s, s') {
      hide DeviceStep, RequestStep, BlockStep, CollectStep;
      var u: nat :| u in s.pcs && (RequestStep(s, s', u) || BlockStep(s, s', u) || CollectStep(s, s', u));
      AloneStepOf(s, s', u, r);
    }
  }

  lemma {:induction false} AloneStepOf(s: State, s': State, u: nat, r: nat)
    requires u in s.pcs && (RequestStep(s, s', u) || BlockStep(s, s', u) || CollectStep(s, s', u))
    ensures r in s'.alone <==> r in s.alone || Alone(s, s', r)
  {
    hide FreshAddress, Waiters, RoomWaiters, RequestsOf;
    assert r in s'.alone && r !in s.alone ==> FoundNobody(s, s', u, r);
    forall t: nat | FoundNobody(s, s', t, r) ensures r in s'.alone {
      assert t == u;
    }
  }

  /** A request that returns is outstanding exactly when its task was alone or mistaken. */
  lemma {:induction false} ReturnExact(s: State, s': State, t: nat, r: nat)
    requires Inv(s) && Next(s, s') && Live(s, t, r) && t in s'.pcs && s'.pcs[t] == Finished(r)
    ensures Outstanding(s', r) <==> r in s'.alone || r in s'.mistaken
  {
    assert LiveOk(s, t, r);
    hide Inv, RequestStep, BlockStep, CollectStep, Moves, Local, Outstanding, LiveOk;
    assert !DeviceStep(s, s');
    hide DeviceStep;
    var u: nat :| u in s.pcs && (RequestStep(s, s', u) || BlockStep(s, s', u) || CollectStep(s, s', u));
    LocalOf(s, u);
    if RequestStep(s, s', u) {
      RequestMoves(s, s', u);
      MovesReturn(s, s', u, t, r);
    } else if BlockStep(s, s', u) {
      BlockMoves(s, s', u);
      MovesReturn(s, s', u, t, r);
    } else if s.pcs[u].Completing? {
      CompletingIs(s, s', u);
      CompletionReturns(s, s', u, t, r);
    } else {
      NotRoomReturn(s, s', u, t, r);
      CollectMoves(s, s', u);
      MovesReturn(s, s', u, t, r);
    }
  }

  lemma {:induction false} NotRoomReturn(s: State, s': State, u: nat, t: nat, r: nat)
    requires u in s.pcs && CollectStep(s, s', u) && Live(s, t, r) && t in s'.pcs && s'.pcs[t] == Finished(r)
    ensures !s.pcs[u].RoomReleasing?
  {
    if s.pcs[u].RoomReleasing? {
      RoomIs(s, s', u);
    }
  }

  lemma {:induction false} MovesReturn(s: State, s': State, u: nat, t: nat, r: nat)
    requires Inv(s) && Moves(s, s', u) && Live(s, t, r) && t in s'.pcs && s'.pcs[t] == Finished(r)
    ensures Outstanding(s', r) && r in s'.alone
  {
    LiveAfter(s, s', u, t, r);
    OutstandingAfter(s, s', u, r);
    assert LiveOk(s, t, r);
  }

  lemma {:induction false} CompletionReturns(s: State, s': State, u: nat, t: nat, r: nat)
    requires Inv(s) && u in s.pcs && s.pcs[u].Completing? && Completion(s, s', u, s.pcs[u].r, Waiters(s, s.pcs[u].r))
    requires Live(s, t, r) && t in s'.pcs && s'.pcs[t] == Finished(r)
    ensures Outstanding(s', r) <==> r in s'.alone || r in s'.mistaken
  {
    hide LocksOk, PlacesOk, NumbersOk, PendingOk, RoomOk, Outstanding;
    var x, ws := s.pcs[u].r, Waiters(s, s.pcs[u].r);
    assert LiveOk(s, t, r);
    CompletionOutstanding(s, s', u, x, ws, r);
    assert t in ws;
    assert r in RequestsOf(s, ws);
  }

  // ---- runs ----

  ghost predicate NextAt(run: seq<State>, i: nat)
    requires i + 1 < |run|
  {
    Next(run[i], run[i + 1])
  }

  ghost predicate IsRun(run: seq<State>) {
    run != [] && Initial(run[0]) && forall i: nat :: i + 1 < |run| ==> NextAt(run, i)
  }

  lemma {:induction false} InitialInv(s: State)
    requires Initial(s)
    ensures Inv(s)
  {
  }

  lemma {:induction false} RunKeeps(run: seq<State>, i: nat)
    requires IsRun(run) && i < |run|
    ensures Inv(run[i])
  {
    hide Next, Inv;
    if i > 0 {
      RunKeeps(run, i - 1);
      assert NextAt(run, i - 1);
      NextKeeps(run[i - 1], run[i]);
    } else {
      InitialInv(run[0]);
    }
  }

  /** At step `k` the task of `r` found nobody. */
  ghost predicate NobodyAt(run: seq<State>, k: nat, r: nat)
    requires k + 1 < |run|
  {
    Alone(run[k], run[k + 1], r)
  }

  /** The requests that went on alone are those whose blocking step found nobody. */
  lemma {:induction false} AloneExact(run: seq<State>, i: nat, r: nat)
    requires IsRun(run) && i < |run|
    ensures r in run[i].alone <==> exists k: nat :: k < i && NobodyAt(run, k, r)
  {
    hide Next, Alone;
    if i > 0 {
      AloneExact(run, i - 1, r);
      assert NextAt(run, i - 1);
      AloneStep(run[i - 1], run[i], r);
      assert NobodyAt(run, i - 1, r) <==> Alone(run[i - 1], run[i], r);
    }
  }

  /** RequestFooter: what the footer says before the device has written to it. */
  const STATUS_OK: nat := 0

  /** What a request that returns reports: the status that the device writes before it gives the request back,
      or else that the footer was made with. */
  function Reported(s: State, r: nat, status: nat -> nat): nat {
    if r in s.flight then STATUS_OK else status(r)
  }

  /** In every interleaving: a request returns while the device or the handler still has it exactly when its
      task found nobody to switch to as it blocked, or was woken by the completion of another request. That is
      an earlier one at the same address whose task found nobody. Only a request that returns early can report
      something else than the device, and it reports success. */
  lemma {:induction false} EarlyReturnExact(run: seq<State>, i: nat, t: nat, r: nat, status: nat -> nat)
    requires IsRun(run) && i + 1 < |run| && Live(run[i], t, r)
    requires t in run[i + 1].pcs && run[i + 1].pcs[t] == Finished(r)
    ensures Outstanding(run[i + 1], r) <==> (exists k: nat :: k < i + 1 && NobodyAt(run, k, r)) || r in run[i + 1].mistaken
    ensures r in run[i + 1].mistaken ==>
              exists x: nat, k: nat :: x < r && k < i + 1 && run[0].addr(x) == run[0].addr(r) && NobodyAt(run, k, x)
    ensures Reported(run[i + 1], r, status) != status(r) ==> Outstanding(run[i + 1], r) && Reported(run[i + 1], r, status) == STATUS_OK
  {
    RunKeeps(run, i);
    RunKeeps(run, i + 1);
    hide Next, Inv, NobodyAt;
    assert NextAt(run, i);
    ReturnExact(run[i], run[i + 1], t, r);
    AloneExact(run, i + 1, r);
    if r in run[i + 1].mistaken {
      MistakenBy(run, i + 1, r);
    }
  }

  lemma {:induction false} MistakenBy(run: seq<State>, i: nat, r: nat)
    requires IsRun(run) && i < |run| && Inv(run[i]) && r in run[i].mistaken
    ensures exists x: nat, k: nat :: x < r && k < i && run[0].addr(x) == run[0].addr(r) && NobodyAt(run, k, x)
  {
    assert FromAlone(run[i], r);
    hide Next, Inv, NobodyAt;
    var x: nat :| x < r && run[i].addr(x) == run[i].addr(r) && x in run[i].alone;
    AloneExact(run, i, x);
    var k: nat :| k < i && NobodyAt(run, k, x);
    SameAddresses(run, i);
    assert x < r && run[0].addr(x) == run[0].addr(r) && NobodyAt(run, k, x);
  }

  lemma {:induction false} SameAddresses(run: seq<State>, i: nat)
    requires IsRun(run) && i < |run|
    ensures run[i].addr == run[0].addr
  {
    hide Next;
    if i > 0 {
      SameAddresses(run, i - 1);
      assert NextAt(run, i - 1);
      AddressesStay(run[i - 1], run[i]);
    }
  }

  lemma {:induction false} AddressesStay(s: State, s': State)
    requires Next(s, s')
    ensures s'.addr == s.addr
  {
    hide FreshAddress, Waiters, RoomWaiters, RequestsOf;
  }

  /** In every interleaving in which no request found nobody as it blocked on its completion: whoever has
      returned is with nobody any more, whatever the blocks on the queue channel found. */
  lemma {:induction false} RequestsSafe(run: seq<State>, i: nat)
    requires IsRun(run) && i < |run|
    requires forall k: nat, r: nat :: k < i ==> !NobodyAt(run, k, r)
    ensures forall r: nat :: Outstanding(run[i], r) <==> HasLive(run[i], r)
    ensures run[i].mistaken == {}
    ensures forall t: nat :: t in run[i].pcs && run[i].pcs[t].Finished? ==> !Outstanding(run[i], run[i].pcs[t].r)
  {
    hide Next, NobodyAt;
    RunKeeps(run, i);
    var s := run[i];
    forall r ensures r !in s.alone {
      AloneExact(run, i, r);
    }
    hide LocksOk, PendingOk, RoomOk, Outstanding;
    assert s.alone == {};
    forall r: nat ensures Outstanding(s, r) <==> HasLive(s, r) {
      if u: nat :| Live(s, u, r) {
        assert LiveOk(s, u, r);
      }
    }
  }

  /** The wake-up of the queue channel: while the request queue is not locked, nobody waits for descriptors
      that are there. */
  lemma {:induction false} NobodyWaitsInVain(run: seq<State>, i: nat)
    requires IsRun(run) && i < |run|
    ensures run[i].spin == None && RoomWaiters(run[i]) != {} ==> run[i].free < NEEDED
  {
    RunKeeps(run, i);
    hide RequestsOk, IsRun;
    var s := run[i];
    if s.spin == None && RoomWaiters(s) != {} {
      var t :| t in RoomWaiters(s);
      assert WaitsForRoom(s, t);
      assert forall u: nat :: u in s.pcs && s.pcs[u].MakesRoom() ==> s.spin == Some(u);
    }
  }

  // ---- conservation ----

  /** The descriptors of the request queue: the free ones, and those of requests with the device or given back. */
  ghost function Descriptors(s: State): nat {
    s.free + NEEDED * (|s.flight| + |s.used|)
  }

  /** Requests with the device are not given back yet, and the next one is new. */
  ghost predicate Apart(s: State) {
    s.flight !! s.used && s.sent !in s.flight
  }

  lemma {:induction false} RequestsApart(s: State)
    requires PlacesOk(s) && NumbersOk(s)
    ensures Apart(s)
  {
    hide BeingCompleted, HasLive;
    assert s.sent in s.flight ==> Outstanding(s, s.sent);
  }

  lemma {:induction false} CollectDescriptors(s: State, s': State, t: nat)
    requires Apart(s) && t in s.pcs && CollectStep(s, s', t)
    ensures Descriptors(s') == Descriptors(s)
  {
    hide Waiters, RoomWaiters, RequestsOf;
    if s.pcs[t].Collecting? && s.used != {} {
      var r :| r in s.used && s' == s.(used := s.used - {r}, free := s.free + NEEDED).Goto(t, CompleteWants(r));
      assert |s.used - {r}| == |s.used| - 1;
    }
  }

  lemma {:induction false} RequestDescriptors(s: State, s': State, t: nat)
    requires Apart(s) && t in s.pcs && RequestStep(s, s', t)
    ensures Descriptors(s') == Descriptors(s)
  {
    hide FreshAddress;
    assert |s.flight + {s.sent}| == |s.flight| + 1;
  }

  lemma {:induction false} BlockDescriptors(s: State, s': State, t: nat)
    requires t in s.pcs && BlockStep(s, s', t)
    ensures Descriptors(s') == Descriptors(s)
  {
    assert s'.free == s.free && s'.flight == s.flight && s'.used == s.used;
  }

  lemma {:induction false} DeviceDescriptors(s: State, s': State)
    requires Apart(s) && DeviceStep(s, s')
    ensures Descriptors(s') == Descriptors(s)
  {
    var r :| r in s.flight && s' == s.(flight := s.flight - {r}, used := s.used + {r});
    assert |s.flight - {r}| == |s.flight| - 1 && |s.used + {r}| == |s.used| + 1;
  }

  /** No step loses a descriptor or makes one up. */
  lemma {:induction false} StepDescriptors(s: State, s': State)
    requires Inv(s) && Next(s, s')
    ensures Descriptors(s') == Descriptors(s)
  {
    RequestsApart(s);
    hide Inv, RequestStep, BlockStep, CollectStep, DeviceStep, Descriptors;
    if DeviceStep(s, s') {
      DeviceDescriptors(s, s');
    } else {
      var t: nat :| t in s.pcs && (RequestStep(s, s', t) || BlockStep(s, s', t) || CollectStep(s, s', t));
      if CollectStep(s, s', t) {
        CollectDescriptors(s, s', t);
      } else if RequestStep(s, s', t) {
        RequestDescriptors(s, s', t);
      } else {
        BlockDescriptors(s, s', t);
      }
    }
  }

  /** In every interleaving: descriptors that are not free belong to a request with the device or given back, three
      to each. When no such request is left, all descriptors are free again. */
  lemma {:induction false} DescriptorsConserved(run: seq<State>, i: nat)
    requires IsRun(run) && i < |run|
    ensures run[i].free + 3 * (|run[i].flight| + |run[i].used|) == run[0].free
    ensures run[i].flight == {} && run[i].used == {} <==> run[i].free == run[0].free
  {
    if i > 0 {
      hide Next, Inv;
      DescriptorsConserved(run, i - 1);
      RunKeeps(run, i - 1);
      assert NextAt(run, i - 1);
      StepDescriptors(run[i - 1], run[i]);
    }
  }

  /** Some task has done something else with the scheduler. */
  ghost predicate FromElsewhere(s: State, s': State) {
    exists t: nat :: t in s.pcs && s.pcs[t].Elsewhere? && t in s'.pcs && s'.pcs[t].Idle?
  }

  lemma {:induction false} WokenTasks(s: State, ts: set<nat>)
    requires ts <= s.pending
    ensures Woken(s, ts).others + |Woken(s, ts).pending| == s.others + |s.pending|
  {
    assert s.pending == (s.pending - ts) + ts;
  }

  lemma {:induction false} SuspendedTasks(s: State, t: nat)
    requires t !in s.pending
    ensures Suspended(s, t).others + |Suspended(s, t).pending| == s.others + |s.pending|
  {
  }

  lemma {:induction false} RequestTasks(s: State, s': State, t: nat)
    requires t in s.pcs && RequestStep(s, s', t) && !FromElsewhere(s, s')
    ensures s'.others + |s'.pending| == s.others + |s.pending|
  {
    hide FreshAddress;
    assert !s.pcs[t].Elsewhere?;
  }

  lemma {:induction false} BlockTasks(s: State, s': State, t: nat)
    requires t in s.pcs && Local(s, t) && BlockStep(s, s', t)
    ensures s'.others + |s'.pending| == s.others + |s.pending|
  {
    if s.pcs[t].FullDropped? || s.pcs[t].SentDropped? {
      SuspendedTasks(s, t);
    }
  }

  lemma {:induction false} CollectTasks(s: State, s': State, t: nat)
    requires t in s.pcs && CollectStep(s, s', t)
    ensures s'.others + |s'.pending| == s.others + |s.pending|
  {
    hide RequestsOf;
    if s.pcs[t].Completing? {
      WokenTasks(s, Waiters(s, s.pcs[t].r));
    } else if s.pcs[t].RoomReleasing? {
      WokenTasks(s, RoomWaiters(s));
    }
  }

  /** A task that blocks hands its processor to a runnable one, and one that is woken is runnable: nobody gets
      lost in between. */
  lemma {:induction false} TasksConserved(s: State, s': State)
    requires Inv(s) && Next(s, s') && !FromElsewhere(s, s')
    ensures s'.others + |s'.pending| == s.others + |s.pending|
  {
    hide Inv, RequestStep, BlockStep, CollectStep, FromElsewhere, Local;
    if !DeviceStep(s, s') {
      hide DeviceStep;
      var t: nat :| t in s.pcs && (RequestStep(s, s', t) || BlockStep(s, s', t) || CollectStep(s, s', t));
      LocalOf(s, t);
      if RequestStep(s, s', t) {
        RequestTasks(s, s', t);
      } else if BlockStep(s, s', t) {
        BlockTasks(s, s', t);
      } else {
        CollectTasks(s, s', t);
      }
    }
  }

  // ---- the course of a request ----

  /** Where a task can go in one step: a request that is asked for is sent and returns, in this order, and the handler
      leaves its loop only when no request is given back. */
  ghost predicate Follows(s: State, s': State, t: nat)
    requires t in s.pcs && t in s'.pcs
  {
    var pc, pc' := s.pcs[t], s'.pcs[t];
    && (pc.Asking() ==> pc'.Asking() || (pc'.Sent() && pc'.r == s.sent && s'.flight == s.flight + {s.sent} && s'.sent == s.sent + 1))
    && (pc.Sent() ==> pc' == Finished(pc.r) || (pc'.Sent() && pc'.r == pc.r))
    && (pc.Finished? ==> pc' == pc || pc'.Idle?)
    && (pc.Collects() ==> pc'.Collects() || pc'.Idle?)
    && (pc.Collects() && pc'.Idle? ==> pc.CollectDone?)
    && (pc'.RoomWants? && !pc.RoomWants? ==> pc.Collecting? && s.used == {})
    && (pc.CompleteWants? ==> pc' == pc || pc' == Completing(pc.r))
    && (pc.Completing? ==> pc' == pc || (pc'.Completed? && Waiters(s', pc.r) == {}))
    && (pc.RoomWants? ==> pc'.RoomWants? || pc'.RoomReleasing?)
    && (pc.RoomReleasing? ==> pc'.RoomReleasing? || pc'.RoomReleased?)
    && (pc'.RoomReleasing? ==> pc.RoomReleasing? || pc.RoomWants?)
    && (pc'.CollectDone? ==> pc.CollectDone? || pc.RoomReleased?)
    && (pc'.RoomReleased? ==> pc.RoomReleased? || (pc.RoomReleasing? && RoomWaiters(s') == {}))
  }

  lemma SameFollows(s: State, s': State, t: nat)
    requires t in s.pcs && t in s'.pcs && s'.pcs[t] == s.pcs[t]
    ensures Follows(s, s', t)
  {
    hide RoomWaiters, Waiters;
  }

  lemma {:induction false} RequestOwn(s: State, s': State, t: nat)
    requires t in s.pcs && RequestStep(s, s', t)
    ensures t in s'.pcs && Follows(s, s', t)
  {
    hide FreshAddress, RoomWaiters, Waiters;
  }

  lemma {:induction false} RequestFollows(s: State, s': State, u: nat, t: nat)
    requires u in s.pcs && RequestStep(s, s', u) && t in s.pcs
    ensures t in s'.pcs && Follows(s, s', t)
  {
    hide RequestStep, Follows;
    RequestOthers(s, s', u);
    if u == t {
      RequestOwn(s, s', t);
    } else {
      SameFollows(s, s', t);
    }
  }

  lemma {:induction false} FullOwn(s: State, s': State, t: nat)
    requires t in s.pcs && FullStep(s, s', t)
    ensures t in s'.pcs && Follows(s, s', t)
  {
    hide RoomWaiters, Waiters;
  }

  lemma {:induction false} FullFollows(s: State, s': State, u: nat, t: nat)
    requires u in s.pcs && FullStep(s, s', u) && t in s.pcs
    ensures t in s'.pcs && Follows(s, s', t)
  {
    hide FullStep, Follows;
    FullOthers(s, s', u);
    if u == t {
      FullOwn(s, s', t);
    } else {
      SameFollows(s, s', t);
    }
  }

  lemma {:induction false} SentOwn(s: State, s': State, t: nat)
    requires t in s.pcs && SentStep(s, s', t)
    ensures t in s'.pcs && Follows(s, s', t)
  {
    hide RoomWaiters, Waiters;
  }

  lemma {:induction false} SentFollows(s: State, s': State, u: nat, t: nat)
    requires u in s.pcs && SentStep(s, s', u) && t in s.pcs
    ensures t in s'.pcs && Follows(s, s', t)
  {
    hide SentStep, Follows;
    SentOthers(s, s', u);
    if u == t {
      SentOwn(s, s', t);
    } else {
      SameFollows(s, s', t);
    }
  }

  lemma {:induction false} CollectOwn(s: State, s': State, t: nat)
    requires t in s.pcs && CollectStep(s, s', t)
    ensures t in s'.pcs && Follows(s, s', t)
  {
    hide RequestsOf;
  }

  lemma AwokenFollows(s: State, s': State, t: nat)
    requires t in s.pcs && t in s'.pcs && s'.pcs[t] == AfterWake(s.pcs[t])
    ensures Follows(s, s', t)
  {
    hide RoomWaiters, Waiters;
  }

  lemma {:induction false} CollectOther(s: State, s': State, u: nat, t: nat)
    requires u in s.pcs && CollectStep(s, s', u) && t in s.pcs && t != u
    ensures t in s'.pcs && (s'.pcs[t] == s.pcs[t] || s'.pcs[t] == AfterWake(s.pcs[t]))
  {
    hide RequestsOf, RoomWaiters, Waiters;
  }

  lemma {:induction false} CollectFollows(s: State, s': State, u: nat, t: nat)
    requires u in s.pcs && CollectStep(s, s', u) && t in s.pcs
    ensures t in s'.pcs && Follows(s, s', t)
  {
    hide CollectStep, Follows;
    if u == t {
      CollectOwn(s, s', t);
    } else {
      CollectOther(s, s', u, t);
      if s'.pcs[t] == s.pcs[t] {
        SameFollows(s, s', t);
      } else {
        AwokenFollows(s, s', t);
      }
    }
  }

  lemma {:induction false} StepFollows(s: State, s': State, t: nat)
    requires Inv(s) && Next(s, s') && t in s.pcs
    ensures t in s'.pcs && Follows(s, s', t)
  {
    if !DeviceStep(s, s') {
      hide RequestStep, FullStep, SentStep, CollectStep, DeviceStep, Follows, RequestsOk, PendingOk, RoomOk, LocksOk;
      var u: nat :| u in s.pcs && (RequestStep(s, s', u) || BlockStep(s, s', u) || CollectStep(s, s', u));
      if CollectStep(s, s', u) {
        CollectFollows(s, s', u, t);
      } else if RequestStep(s, s', u) {
        RequestFollows(s, s', u, t);
      } else if FullStep(s, s', u) {
        FullFollows(s, s', u, t);
      } else {
        SentFollows(s, s', u, t);
      }
    }
  }

  lemma {:induction false} RunFollows(run: seq<State>, i: nat, t: nat)
    requires IsRun(run) && i + 1 < |run| && t in run[i].pcs
    ensures t in run[i + 1].pcs && Follows(run[i], run[i + 1], t)
  {
    hide Next, Inv, Follows;
    RunKeeps(run, i);
    assert NextAt(run, i);
    StepFollows(run[i], run[i + 1], t);
  }

  ghost predicate AsksAt(run: seq<State>, t: nat, i: nat) {
    i < |run| && t in run[i].pcs && run[i].pcs[t].Asking()
  }

  ghost predicate WaitsAt(run: seq<State>, t: nat, i: nat, r: nat) {
    i < |run| && Live(run[i], t, r)
  }

  lemma {:induction false} AsksUntilSent(run: seq<State>, t: nat, i: nat, j: nat) returns (m: nat)
    requires IsRun(run) && i < j < |run| && AsksAt(run, t, i) && t in run[j].pcs && !run[j].pcs[t].Asking()
    ensures i < m <= j && (forall x: nat :: i <= x < m ==> AsksAt(run, t, x))
    ensures WaitsAt(run, t, m, run[m - 1].sent) && run[m].flight == run[m - 1].flight + {run[m - 1].sent}
    decreases j - i
  {
    hide IsRun;
    RunFollows(run, i, t);
    if run[i + 1].pcs[t].Asking() {
      m := AsksUntilSent(run, t, i + 1, j);
    } else {
      m := i + 1;
    }
  }

  lemma {:induction false} WaitsUntilFinished(run: seq<State>, t: nat, i: nat, j: nat, r: nat) returns (k: nat)
    requires IsRun(run) && i < j < |run| && WaitsAt(run, t, i, r) && t in run[j].pcs && !run[j].pcs[t].Sent()
    ensures i < k <= j && (forall x: nat :: i <= x < k ==> WaitsAt(run, t, x, r))
    ensures t in run[k].pcs && run[k].pcs[t] == Finished(r)
    decreases j - i
  {
    hide IsRun;
    RunFollows(run, i, t);
    if run[i + 1].pcs[t].Sent() {
      k := WaitsUntilFinished(run, t, i + 1, j, r);
    } else {
      k := i + 1;
    }
  }

  /** In every interleaving a call returns only after it has sent one request and that has returned: it asks until the
      request is sent, and waits for that one until it is over. */
  lemma {:induction false} RequestReturns(run: seq<State>, t: nat, i: nat, j: nat) returns (m: nat, k: nat, r: nat)
    requires IsRun(run) && i < j < |run| && AsksAt(run, t, i) && t in run[j].pcs && run[j].pcs[t].Idle?
    ensures i < m < k < j
    ensures forall x: nat :: i <= x < m ==> AsksAt(run, t, x)
    ensures r == run[m - 1].sent && run[m].flight == run[m - 1].flight + {r}
    ensures forall x: nat :: m <= x < k ==> WaitsAt(run, t, x, r)
    ensures t in run[k].pcs && run[k].pcs[t] == Finished(r)
  {
    hide IsRun;
    m := AsksUntilSent(run, t, i, j);
    r := run[m - 1].sent;
    k := WaitsUntilFinished(run, t, m, j, r);
  }

  ghost predicate CollectsAt(run: seq<State>, t: nat, i: nat) {
    i < |run| && t in run[i].pcs && run[i].pcs[t].Collects() && !run[i].pcs[t].CollectDone? && !run[i].pcs[t].RoomReleased?
    && !run[i].pcs[t].RoomReleasing? && !run[i].pcs[t].RoomWants?
  }

  /** In every interleaving the handler that has begun to collect returns only after a moment at which no request was left
      given back, and after it has woken everybody who waits for descriptors. */
  lemma {:induction false} CollectReturns(run: seq<State>, t: nat, i: nat, j: nat) returns (m: nat, k: nat)
    requires IsRun(run) && i < j < |run| && CollectsAt(run, t, i) && t in run[j].pcs && run[j].pcs[t].Idle?
    ensures i <= m < k < j && run[m].used == {} && (forall x: nat :: i <= x <= m ==> CollectsAt(run, t, x))
    ensures RoomWaiters(run[k]) == {}
  {
    hide IsRun;
    m := CollectsUntilEmpty(run, t, i, j);
    k := WakesForRoom(run, t, m + 1, j);
  }

  lemma {:induction false} CollectsUntilEmpty(run: seq<State>, t: nat, i: nat, j: nat) returns (m: nat)
    requires IsRun(run) && i < j < |run| && CollectsAt(run, t, i) && t in run[j].pcs && run[j].pcs[t].Idle?
    ensures i <= m && m + 1 < j && run[m].used == {} && (forall x: nat :: i <= x <= m ==> CollectsAt(run, t, x))
    ensures t in run[m + 1].pcs && run[m + 1].pcs[t].RoomWants?
    decreases j - i
  {
    hide IsRun, RoomWaiters, Waiters;
    RunFollows(run, i, t);
    if run[i + 1].pcs[t].RoomWants? {
      m := i;
    } else {
      m := CollectsUntilEmpty(run, t, i + 1, j);
    }
  }

  lemma {:induction false} WakesForRoom(run: seq<State>, t: nat, i: nat, j: nat) returns (k: nat)
    requires IsRun(run) && i < j < |run| && t in run[i].pcs && t in run[j].pcs && run[j].pcs[t].Idle?
    requires run[i].pcs[t].RoomWants? || run[i].pcs[t].RoomReleasing?
    ensures i < k < j && RoomWaiters(run[k]) == {}
    decreases j - i
  {
    hide IsRun, RoomWaiters, Waiters;
    RunFollows(run, i, t);
    if run[i + 1].pcs[t].RoomReleased? {
      k := i + 1;
    } else {
      k := WakesForRoom(run, t, i + 1, j);
    }
  }

  // ---- progress ----

  /** Task `t` is in the middle of something and can go on. */
  ghost predicate CanStep(s: State, t: nat) {
    t in s.pcs && !s.pcs[t].Idle? && exists s' :: RequestStep(s, s', t) || BlockStep(s, s', t) || CollectStep(s, s', t)
  }

  lemma {:induction false} RequestCan(s: State, t: nat)
    requires t in s.pcs && (s.pcs[t].Elsewhere? || s.pcs[t].Finished? || (s.pcs[t].Wants? && s.spin == None) || (s.pcs[t].Sending? && FreshAddress(s, t)))
    ensures CanStep(s, t)
  {
    hide FreshAddress, BlockStep, CollectStep;
    if s.pcs[t].Elsewhere? {
      assert RequestStep(s, s.Queue(None).Goto(t, Idle), t);
    } else if s.pcs[t].Finished? {
      assert RequestStep(s, s.Goto(t, Idle), t);
    } else if s.pcs[t].Wants? {
      assert RequestStep(s, s.Spin(Some(t)).Goto(t, Sending), t);
    } else if s.free < NEEDED {
      assert RequestStep(s, s.Goto(t, FullWants), t);
    } else {
      assert RequestStep(s, s.(free := s.free - NEEDED, flight := s.flight + {s.sent}, sent := s.sent + 1).Goto(t, SentWants(s.sent)), t);
    }
  }

  lemma {:induction false} FullCan(s: State, t: nat)
    requires t in s.pcs && (s.pcs[t].FullBoth? || s.pcs[t].FullDropped? || s.pcs[t].FullDone? || (s.pcs[t].FullWants? && s.queue == None))
    ensures CanStep(s, t)
  {
    hide RequestStep, CollectStep;
    match s.pcs[t]
    case FullWants => assert BlockStep(s, s.Queue(Some(t)).Goto(t, FullBoth), t);
    case FullBoth => assert BlockStep(s, s.Spin(None).Goto(t, FullDropped), t);
    case FullDropped => assert BlockStep(s, Suspended(s, t).Goto(t, FullDone), t);
    case FullDone => assert BlockStep(s, s.Queue(None).Goto(t, if t in s.pending then FullSleeping else Wants), t);
  }

  lemma {:induction false} SentCan(s: State, t: nat)
    requires t in s.pcs && (s.pcs[t].SentBoth? || s.pcs[t].SentDropped? || s.pcs[t].SentDone? || (s.pcs[t].SentWants? && s.queue == None))
    ensures CanStep(s, t)
  {
    hide RequestStep, CollectStep;
    match s.pcs[t]
    case SentWants(r) => assert BlockStep(s, s.Queue(Some(t)).Goto(t, SentBoth(r)), t);
    case SentBoth(r) => assert BlockStep(s, s.Spin(None).Goto(t, SentDropped(r)), t);
    case SentDropped(r) => assert BlockStep(s, Suspended(s, t).(alone := if s.others == 0 then s.alone + {r} else s.alone).Goto(t, SentDone(r)), t);
    case SentDone(r) => assert BlockStep(s, s.Queue(None).Goto(t, if t in s.pending then SentSleeping(r) else Finished(r)), t);
  }

  lemma {:induction false} CollectCan(s: State, t: nat)
    requires t in s.pcs && (s.pcs[t].Collecting? || s.pcs[t].Completing? || s.pcs[t].Completed? || s.pcs[t].RoomReleasing? || s.pcs[t].RoomReleased? || s.pcs[t].CollectDone?)
    ensures CanStep(s, t)
  {
    hide RequestStep, BlockStep, Waiters, RoomWaiters, RequestsOf, Woken;
    match s.pcs[t]
    case Collecting =>
      if s.used == {} {
        assert CollectStep(s, s.Goto(t, RoomWants), t);
      } else {
        var r :| r in s.used;
        assert CollectStep(s, s.(used := s.used - {r}, free := s.free + NEEDED).Goto(t, CompleteWants(r)), t);
      }
    case Completing(r) => assert CollectStep(s, Woken(s, Waiters(s, r)).(mistaken := s.mistaken + (RequestsOf(s, Waiters(s, r)) - {r})).Goto(t, Completed), t);
    case Completed => assert CollectStep(s, s.Queue(None).Goto(t, Collecting), t);
    case RoomReleasing => assert CollectStep(s, Woken(s, RoomWaiters(s)).Goto(t, RoomReleased), t);
    case RoomReleased => assert CollectStep(s, s.Queue(None).Goto(t, CollectDone), t);
    case CollectDone => assert CollectStep(s, s.Spin(None).Goto(t, Idle), t);
  }

  lemma {:induction false} LockCan(s: State, t: nat)
    requires t in s.pcs && ((s.pcs[t].CollectWants? && s.spin == None) || ((s.pcs[t].CompleteWants? || s.pcs[t].RoomWants?) && s.queue == None))
    ensures CanStep(s, t)
  {
    hide RequestStep, BlockStep, Waiters, RoomWaiters, RequestsOf, Woken;
    match s.pcs[t]
    case CollectWants => assert CollectStep(s, s.Spin(Some(t)).Goto(t, Collecting), t);
    case CompleteWants(r) => assert CollectStep(s, s.Queue(Some(t)).Goto(t, Completing(r)), t);
    case RoomWants => assert CollectStep(s, s.Queue(Some(t)).Goto(t, RoomReleasing), t);
  }

  /** Whoever holds the scheduler's lock can go on, whoever holds the lock of the request queue can go on when that
      is free, and everybody else who is awake when both are. */
  lemma {:induction false} AwakeCan(s: State, t: nat)
    requires t in s.pcs && !s.pcs[t].Idle? && !s.pcs[t].FullSleeping? && !s.pcs[t].SentSleeping?
    requires s.pcs[t].HoldsQueue() || (s.queue == None && (s.pcs[t].HoldsSpin() || s.spin == None))
    requires s.pcs[t].Sending? ==> FreshAddress(s, t)
    ensures CanStep(s, t)
  {
    hide CanStep, FreshAddress;
    match s.pcs[t]
    case FullWants => FullCan(s, t);
    case FullBoth => FullCan(s, t);
    case FullDropped => FullCan(s, t);
    case FullDone => FullCan(s, t);
    case SentWants(_) => SentCan(s, t);
    case SentBoth(_) => SentCan(s, t);
    case SentDropped(_) => SentCan(s, t);
    case SentDone(_) => SentCan(s, t);
    case CollectWants => LockCan(s, t);
    case CompleteWants(_) => LockCan(s, t);
    case RoomWants => LockCan(s, t);
    case Wants => RequestCan(s, t);
    case Sending => RequestCan(s, t);
    case Finished(_) => RequestCan(s, t);
    case Elsewhere => RequestCan(s, t);
    case _ => CollectCan(s, t);
  }

  /** Nobody who is in the middle of something can go on. Footers of tasks are in different places. */
  ghost predicate Stuck(s: State) {
    && (forall t: nat :: !CanStep(s, t))
    && (forall t: nat :: t in s.pcs && s.pcs[t].Sending? ==> FreshAddress(s, t))
  }

  lemma {:induction false} StuckUnlocked(s: State)
    requires LocksOk(s) && Stuck(s)
    ensures s.queue == None && s.spin == None
  {
    hide CanStep, FreshAddress;
    if s.queue.Some? {
      assert s.queue.value in s.pcs;
      AwakeCan(s, s.queue.value);
    } else if s.spin.Some? {
      assert s.spin.value in s.pcs;
      AwakeCan(s, s.spin.value);
    }
  }

  lemma {:induction false} StuckAsleep(s: State, t: nat)
    requires Inv(s) && Stuck(s) && t in s.pcs && !s.pcs[t].Idle?
    ensures s.spin == None && t in s.pending && (s.pcs[t].FullSleeping? || s.pcs[t].SentSleeping?)
  {
    hide RequestsOk, RoomOk, CanStep, FreshAddress;
    StuckUnlocked(s);
    if !s.pcs[t].FullSleeping? && !s.pcs[t].SentSleeping? {
      AwakeCan(s, t);
    }
  }

  /** There is no deadlock: in every interleaving, when nobody can go on, whoever is in the middle of something sleeps.
      It sleeps for descriptors while there are too few, or for a request that the device has or has given back. */
  lemma {:induction false} NoDeadlock(run: seq<State>, i: nat, t: nat)
    requires IsRun(run) && i < |run| && Stuck(run[i]) && t in run[i].pcs && !run[i].pcs[t].Idle?
    ensures t in run[i].pending
    ensures match run[i].pcs[t]
            case SentSleeping(r) => r in run[i].flight || r in run[i].used
            case FullSleeping => run[i].free < NEEDED && (run[0].free >= NEEDED ==> run[i].flight != {} || run[i].used != {})
            case _ => false
  {
    RunKeeps(run, i);
    hide IsRun, LocksOk, PendingOk, RoomOk;
    var s := run[i];
    StuckAsleep(s, t);
    if s.pcs[t].FullSleeping? {
      assert t in RoomWaiters(s);
      NobodyWaitsInVain(run, i);
      DescriptorsConserved(run, i);
    } else {
      var r := s.pcs[t].r;
      assert Live(s, t, r) && LiveOk(s, t, r);
      if u: nat :| u in s.pcs && s.pcs[u].Completes(r) {
        StuckAsleep(s, u);
      }
    }
  }
}
