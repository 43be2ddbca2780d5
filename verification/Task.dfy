/** The task queue and the scheduler around it, task.rs. */
module Tasks {
  import opened Bytes

  const LEVELS: nat := 4

  type Level = l: nat | l < LEVELS witness 0
  datatype Task = Task(id: nat, level: Level)
  type Channel = int
  datatype Switch = Blocked(chan: Channel, timeout: Option<nat>) | Sleep(ticks: nat) | Yield
  datatype Timeout = Timeout(deadline: nat, id: nat, chan: Option<Channel>)

  /** What a pending task waits for: a release of a channel, a deadline, or both. */
  datatype Wait = Wait(task: Task, chan: Option<Channel>, deadline: Option<nat>)

  type Runnable = r: seq<seq<Task>> | |r| == LEVELS && InLevels(r) witness [[], [], [], []]

  /** Each queue holds tasks of its own level. */
  predicate InLevels(r: seq<seq<Task>>) {
    forall l, i :: 0 <= l < |r| && 0 <= i < |r[l]| ==> r[l][i].level == l
  }

  function Push(r: Runnable, t: Task): Runnable {
    r[t.level := r[t.level] + [t]]
  }

  /** Tasks in turn go to the end of the queue of their level. */
  function PushAll(r: Runnable, ts: seq<Task>): Runnable {
    if ts == [] then r else Push(PushAll(r, ts[..|ts| - 1]), ts[|ts| - 1])
  }

  // ---- bags of tasks ----

  ghost function BagOf(r: seq<seq<Task>>): multiset<Task> {
    if r == [] then multiset{} else BagOf(r[..|r| - 1]) + multiset(r[|r| - 1])
  }

  lemma {:induction false} BagGrows(r: seq<seq<Task>>, l: nat, q: seq<Task>, t: Task)
    requires l < |r| && multiset(q) == multiset(r[l]) + multiset{t}
    ensures BagOf(r[l := q]) == BagOf(r) + multiset{t}
  {
    var k, r' := |r| - 1, r[l := q];
    if l < k {
      BagGrows(r[..k], l, q, t);
      assert r'[..k] == r[..k][l := q];
    } else {
      assert r'[..k] == r[..k];
    }
  }

  lemma {:induction false} PushAdds(r: Runnable, t: Task)
    ensures BagOf(Push(r, t)) == BagOf(r) + multiset{t}
  {
    BagGrows(r, t.level, r[t.level] + [t], t);
  }

  lemma {:induction false} PopRemoves(r: Runnable, l: Level)
    requires r[l] != []
    ensures BagOf(r) == BagOf(r[l := r[l][1..]]) + multiset{r[l][0]}
  {
    var r' := r[l := r[l][1..]];
    assert r[l] == [r[l][0]] + r[l][1..];
    BagGrows(r', l, r[l], r[l][0]);
    assert r'[l := r[l]] == r;
  }

  /** The tasks that wait under ids below `n`. */
  ghost function Waiting(waits: map<nat, Wait>, n: nat): multiset<Task> {
    if n == 0 then multiset{} else
    Waiting(waits, n - 1) + if n - 1 in waits then multiset{waits[n - 1].task} else multiset{}
  }

  lemma {:induction false} WaitingSame(waits: map<nat, Wait>, waits': map<nat, Wait>, n: nat)
    requires forall id: nat :: id < n ==> (id in waits <==> id in waits') && (id in waits ==> waits'[id] == waits[id])
    ensures Waiting(waits', n) == Waiting(waits, n)
  {
    if n > 0 {
      WaitingSame(waits, waits', n - 1);
    }
  }

  lemma {:induction false} WaitingLast(waits: map<nat, Wait>, n: nat)
    ensures Waiting(waits, n + 1) == if n in waits then Waiting(waits, n) + multiset{waits[n].task} else Waiting(waits, n)
  {
  }

  lemma {:induction false} WaitingRemove(waits: map<nat, Wait>, id: nat, n: nat)
    requires id in waits && id < n
    ensures Waiting(waits, n) == Waiting(waits - {id}, n) + multiset{waits[id].task}
  {
    hide Waiting;
    WaitingLast(waits, n - 1);
    WaitingLast(waits - {id}, n - 1);
    if id == n - 1 {
      WaitingSame(waits, waits - {id}, n - 1);
    } else {
      WaitingRemove(waits, id, n - 1);
    }
  }

  // ---- what pending tasks wait for ----

  type Blocks = map<Channel, seq<nat>>
  type Waits = map<nat, Wait>

  ghost predicate Increasing(ids: seq<nat>) {
    forall i, j :: 0 <= i < j < |ids| ==> ids[i] < ids[j]
  }

  /** The entry of `c` lists the ids that wait for `c`, in the order in which they came. */
  ghost predicate BlockOk(blocks: Blocks, waits: Waits, c: Channel) {
    && (c in blocks ==> Increasing(blocks[c]))
    && (forall id: nat :: (c in blocks && id in blocks[c]) <==> (id in waits && waits[id].chan == Some(c)))
  }

  ghost predicate BlocksOk(blocks: Blocks, waits: Waits) {
    forall c: Channel :: BlockOk(blocks, waits, c)
  }

  predicate Before(a: Timeout, b: Timeout) {
    a.deadline < b.deadline || (a.deadline == b.deadline && a.id <= b.id)
  }

  ghost predicate Sorted(ts: seq<Timeout>) {
    forall i, j :: 0 <= i < j < |ts| ==> Before(ts[i], ts[j])
  }

  /** The min-heap of timeouts, as a sorted sequence. */
  function InsertTimeout(ts: seq<Timeout>, x: Timeout): seq<Timeout> {
    if ts == [] || Before(x, ts[0]) then [x] + ts else [ts[0]] + InsertTimeout(ts[1..], x)
  }

  lemma {:induction false} InsertSorts(ts: seq<Timeout>, x: Timeout)
    requires Sorted(ts)
    ensures Sorted(InsertTimeout(ts, x))
    ensures forall y :: y in InsertTimeout(ts, x) <==> y in ts || y == x
  {
    if ts != [] && !Before(x, ts[0]) {
      InsertSorts(ts[1..], x);
      var r := InsertTimeout(ts[1..], x);
      forall k | 0 <= k < |r| ensures Before(ts[0], r[k]) {
        assert r[k] in r;
      }
      assert forall y :: y in ts <==> y == ts[0] || y in ts[1..];
    }
  }

  /** A timeout of a pending task is what the task waits for; others are left over. */
  ghost predicate TimeoutOk(x: Timeout, waits: Waits, gen: nat) {
    && x.id < gen
    && (x.id in waits ==> waits[x.id].deadline == Some(x.deadline) && waits[x.id].chan == x.chan)
  }

  ghost predicate TimeoutsOk(ts: seq<Timeout>, waits: Waits, gen: nat) {
    && Sorted(ts)
    && (forall x :: x in ts ==> TimeoutOk(x, waits, gen))
    && (forall id: nat :: id in waits && waits[id].deadline.Some? ==> Timeout(waits[id].deadline.value, id, waits[id].chan) in ts)
  }

  ghost predicate WaitsOk(waits: Waits, gen: nat) {
    forall id: nat :: id in waits ==> id < gen && (waits[id].chan.Some? || waits[id].deadline.Some?)
  }

  ghost predicate WaitingOk(blocks: Blocks, ts: seq<Timeout>, waits: Waits, gen: nat) {
    WaitsOk(waits, gen) && BlocksOk(blocks, waits) && TimeoutsOk(ts, waits, gen)
  }

  ghost function TasksOf(waits: Waits): map<nat, Task> {
    map id | id in waits :: waits[id].task
  }

  lemma {:induction false} TasksWith(waits: Waits, id: nat, x: Wait)
    ensures TasksOf(waits[id := x]) == TasksOf(waits)[id := x.task]
  {
  }

  lemma {:induction false} TasksWithout(waits: Waits, id: nat)
    ensures TasksOf(waits - {id}) == TasksOf(waits) - {id}
    ensures TasksOf(waits).Keys == waits.Keys && (id in waits ==> TasksOf(waits)[id] == waits[id].task)
  {
  }

  /** The ids that a release of `c` wakes. */
  function Waiters(blocks: Blocks, c: Channel): seq<nat> {
    if c in blocks then blocks[c] else []
  }

  function BlocksWith(blocks: Blocks, c: Channel, id: nat): Blocks {
    blocks[c := (if c in blocks then blocks[c] else []) + [id]]
  }

  lemma {:induction false} BlockedKeeps(blocks: Blocks, ts: seq<Timeout>, waits: Waits, gen: nat, t: Task,
      c: Channel, deadline: Option<nat>)
    requires WaitingOk(blocks, ts, waits, gen)
    ensures BlocksOk(BlocksWith(blocks, c, gen), waits[gen := Wait(t, Some(c), deadline)])
  {
    var blocks', waits' := BlocksWith(blocks, c, gen), waits[gen := Wait(t, Some(c), deadline)];
    forall d: Channel ensures BlockOk(blocks', waits', d) {
      assert BlockOk(blocks, waits, d);
      if d == c && c in blocks {
        forall i | 0 <= i < |blocks[c]| ensures blocks[c][i] < gen {
          assert blocks[c][i] in blocks[c];
        }
      }
    }
  }

  lemma {:induction false} SleptKeeps(blocks: Blocks, ts: seq<Timeout>, waits: Waits, gen: nat, t: Task,
      deadline: Option<nat>)
    requires WaitingOk(blocks, ts, waits, gen)
    ensures BlocksOk(blocks, waits[gen := Wait(t, None, deadline)])
  {
    var waits' := waits[gen := Wait(t, None, deadline)];
    forall d: Channel ensures BlockOk(blocks, waits', d) {
      assert BlockOk(blocks, waits, d);
    }
  }

  lemma {:induction false} TimeoutKeeps(ts: seq<Timeout>, waits: Waits, gen: nat, x: Wait)
    requires TimeoutsOk(ts, waits, gen) && WaitsOk(waits, gen)
    ensures TimeoutsOk(if x.deadline.Some? then InsertTimeout(ts, Timeout(x.deadline.value, gen, x.chan)) else ts, waits[gen := x], gen + 1)
  {
    hide Sorted;
    if x.deadline.Some? {
      InsertSorts(ts, Timeout(x.deadline.value, gen, x.chan));
    }
  }

  // ---- waking ----

  /** Without the ids `ids`. */
  function Without(waits: Waits, ids: seq<nat>): Waits {
    map id | id in waits && id !in ids :: waits[id]
  }

  lemma {:induction false} WithoutMore(waits: Waits, ids: seq<nat>, i: nat)
    requires i < |ids|
    ensures Without(waits, ids[..i + 1]) == Without(waits, ids[..i]) - {ids[i]}
  {
    assert ids[..i + 1] == ids[..i] + [ids[i]];
  }

  lemma {:induction false} WithoutNone(waits: Waits, ids: seq<nat>, r: Runnable)
    ensures Without(waits, ids[..0]) == waits == Without(waits, []) && PushAll(r, TasksAt(waits, ids[..0])) == PushAll(r, TasksAt(waits, [])) == r
  {
    assert TasksAt(waits, []) == [];
  }

  /** The tasks that wait under the ids `ids`. */
  function TasksAt(waits: Waits, ids: seq<nat>): seq<Task>
    requires forall i :: 0 <= i < |ids| ==> ids[i] in waits
  {
    seq(|ids|, i requires 0 <= i < |ids| => waits[ids[i]].task)
  }

  lemma {:induction false} PushMore(r: Runnable, waits: Waits, ids: seq<nat>, i: nat)
    requires (forall k :: 0 <= k < |ids| ==> ids[k] in waits) && i < |ids|
    ensures PushAll(r, TasksAt(waits, ids[..i + 1])) == Push(PushAll(r, TasksAt(waits, ids[..i])), waits[ids[i]].task)
  {
    var ts := TasksAt(waits, ids[..i + 1]);
    assert ts[..|ts| - 1] == TasksAt(waits, ids[..i]);
  }

  /** Taking out everybody who waits for `c`. */
  lemma {:induction false} ReleaseKeeps(blocks: Blocks, ts: seq<Timeout>, waits: Waits, gen: nat, c: Channel)
    requires WaitingOk(blocks, ts, waits, gen) && c in blocks
    ensures WaitingOk(blocks - {c}, ts, Without(waits, blocks[c]), gen)
    ensures forall id: nat :: id in blocks[c] <==> id in waits && waits[id].chan == Some(c)
  {
    hide Sorted;
    var waits' := Without(waits, blocks[c]);
    assert BlockOk(blocks, waits, c);
    forall d: Channel ensures BlockOk(blocks - {c}, waits', d) {
      assert BlockOk(blocks, waits, d);
    }
    forall x | x in ts ensures TimeoutOk(x, waits', gen) {
      assert TimeoutOk(x, waits, gen);
    }
  }

  function Retain(ids: seq<nat>, id: nat): (r: seq<nat>)
    ensures forall x :: x in r <==> x in ids && x != id
  {
    if ids == [] then [] else
    assert forall x :: x in ids <==> x in ids[..|ids| - 1] || x == ids[|ids| - 1];
    Retain(ids[..|ids| - 1], id) + if ids[|ids| - 1] != id then [ids[|ids| - 1]] else []
  }

  lemma {:induction false} RetainIncreasing(ids: seq<nat>, id: nat)
    requires Increasing(ids)
    ensures Increasing(Retain(ids, id))
  {
    if ids != [] {
      var k := |ids| - 1;
      RetainIncreasing(ids[..k], id);
      var r := Retain(ids[..k], id);
      forall i | 0 <= i < |r| ensures r[i] < ids[k] {
        assert r[i] in ids[..k];
      }
    }
  }

  function BlocksWithout(blocks: Blocks, x: Timeout): Blocks {
    if x.chan.Some? && x.chan.value in blocks then blocks[x.chan.value := Retain(blocks[x.chan.value], x.id)] else blocks
  }

  /** Taking out the task of the first timeout, or nobody if the timeout is left over. */
  lemma {:induction false} ExpireKeeps(blocks: Blocks, ts: seq<Timeout>, waits: Waits, gen: nat)
    requires WaitingOk(blocks, ts, waits, gen) && ts != []
    ensures WaitingOk(BlocksWithout(blocks, ts[0]), ts[1..], waits - {ts[0].id}, gen)
  {
    var x := ts[0];
    var blocks', waits' := BlocksWithout(blocks, x), waits - {x.id};
    assert TimeoutOk(x, waits, gen);
    forall d: Channel ensures BlockOk(blocks', waits', d) {
      assert BlockOk(blocks, waits, d);
      if d in blocks {
        RetainIncreasing(blocks[d], x.id);
      }
    }
    forall y | y in ts[1..] ensures TimeoutOk(y, waits', gen) {
      assert y in ts && TimeoutOk(y, waits, gen);
    }
    assert forall y :: y in ts <==> y == x || y in ts[1..];
  }

  predicate Due(x: Wait, now: nat) {
    x.deadline.Some? && x.deadline.value <= now
  }

  ghost predicate Distinct(ids: seq<nat>) {
    forall i, j :: 0 <= i < j < |ids| ==> ids[i] != ids[j]
  }

  /** Earlier deadlines come first, and among equal ones the task that came first. */
  ghost predicate InOrder(waits: Waits, ids: seq<nat>) {
    forall i, j :: 0 <= i < j < |ids| && ids[i] in waits && ids[j] in waits && waits[ids[i]].deadline.Some? && waits[ids[j]].deadline.Some? ==>
      var a, b := waits[ids[i]].deadline.value, waits[ids[j]].deadline.value;
      a < b || (a == b && ids[i] <= ids[j])
  }

  /** The tasks under `woken` have been taken out of `w0`; all were due, and came before what is left in `ts`. */
  ghost predicate Woken(w0: Waits, waits: Waits, ts: seq<Timeout>, woken: seq<nat>, now: nat) {
    && waits == Without(w0, woken)
    && Distinct(woken)
    && (forall i :: 0 <= i < |woken| ==> woken[i] in w0 && Due(w0[woken[i]], now))
    && InOrder(w0, woken)
    && (forall i, y :: 0 <= i < |woken| && y in ts && woken[i] in w0 && w0[woken[i]].deadline.Some? ==>
          Before(Timeout(w0[woken[i]].deadline.value, woken[i], None), y))
  }

  lemma {:induction false} WokenNext(blocks: Blocks, ts: seq<Timeout>, w0: Waits, waits: Waits, gen: nat,
      woken: seq<nat>, now: nat, r: Runnable)
    requires WaitingOk(blocks, ts, waits, gen) && Woken(w0, waits, ts, woken, now) && ts != [] && ts[0].deadline <= now
    ensures var id := ts[0].id;
            && (id in waits <==> id in w0 && id !in woken)
            && (id in waits ==> waits[id] == w0[id])
            && var woken' := if id in w0 && id !in woken then woken + [id] else woken;
               && Woken(w0, waits - {id}, ts[1..], woken', now)
               && PushAll(r, TasksAt(w0, woken')) == if id in waits then Push(PushAll(r, TasksAt(w0, woken)), w0[id].task) else PushAll(r, TasksAt(w0, woken))
  {
    hide BlocksOk, PushAll, Push, Woken, TasksAt;
    var x := ts[0];
    assert x in ts && TimeoutOk(x, waits, gen);
    WokenSame(w0, waits, ts, woken, now, x.id);
    if x.id in waits {
      var woken' := woken + [x.id];
      WokenOne(blocks, ts, w0, waits, gen, woken, now);
      WokenListed(w0, waits, ts, woken, now, x.id);
      PushMore(r, w0, woken', |woken|);
      assert woken'[..|woken|] == woken && woken'[..|woken| + 1] == woken';
    } else {
      WokenNobody(w0, waits, ts, woken, now);
    }
  }

  lemma {:induction false} WokenSame(w0: Waits, waits: Waits, ts: seq<Timeout>, woken: seq<nat>, now: nat, id: nat)
    requires Woken(w0, waits, ts, woken, now)
    ensures id in waits <==> id in w0 && id !in woken
    ensures id in waits ==> waits[id] == w0[id]
    ensures forall i :: 0 <= i < |woken| ==> woken[i] in w0
  {
    hide InOrder, Distinct;
  }

  lemma {:induction false} WokenListed(w0: Waits, waits: Waits, ts: seq<Timeout>, woken: seq<nat>, now: nat, id: nat)
    requires Woken(w0, waits, ts, woken, now) && id in w0
    ensures forall i :: 0 <= i < |woken + [id]| ==> (woken + [id])[i] in w0
  {
    hide InOrder, Distinct;
  }

  /** A left-over timeout wakes nobody. */
  lemma {:induction false} WokenNobody(w0: Waits, waits: Waits, ts: seq<Timeout>, woken: seq<nat>, now: nat)
    requires Woken(w0, waits, ts, woken, now) && ts != [] && ts[0].id !in waits
    ensures Woken(w0, waits - {ts[0].id}, ts[1..], woken, now)
  {
    hide InOrder, Distinct;
    assert waits - {ts[0].id} == waits;
    assert forall y :: y in ts[1..] ==> y in ts;
  }

  /** The first timeout wakes its task after all others. */
  lemma {:induction false} WokenOne(blocks: Blocks, ts: seq<Timeout>, w0: Waits, waits: Waits, gen: nat,
      woken: seq<nat>, now: nat)
    requires WaitingOk(blocks, ts, waits, gen) && Woken(w0, waits, ts, woken, now) && ts != [] && ts[0].deadline <= now
    requires ts[0].id in waits
    ensures Woken(w0, waits - {ts[0].id}, ts[1..], woken + [ts[0].id], now)
  {
    hide BlocksOk;
    var x := ts[0];
    assert x in ts && TimeoutOk(x, waits, gen);
    assert forall y :: y in ts[1..] ==> y in ts;
    var woken' := woken + [x.id];
    assert w0[x.id].deadline == Some(x.deadline);
    assert waits - {x.id} == Without(w0, woken');
    forall y | y in ts[1..] ensures Before(x, y) {
      var k :| 0 <= k < |ts[1..]| && ts[1..][k] == y;
      assert ts[k + 1] == y;
    }
  }

  lemma {:induction false} WokenAll(blocks: Blocks, ts: seq<Timeout>, w0: Waits, waits: Waits, gen: nat,
      woken: seq<nat>, now: nat)
    requires WaitingOk(blocks, ts, waits, gen) && Woken(w0, waits, ts, woken, now) && (ts == [] || ts[0].deadline > now)
    ensures forall id: nat :: id in woken <==> id in w0 && Due(w0[id], now)
  {
    hide BlocksOk;
    forall id: nat | id in w0 && id !in woken ensures !Due(w0[id], now) {
      if w0[id].deadline.Some? {
        var y := Timeout(w0[id].deadline.value, id, w0[id].chan);
        assert id in waits && y in ts;
        var k :| 0 <= k < |ts| && ts[k] == y;
        assert k > 0 ==> Before(ts[0], ts[k]);
      }
    }
    forall id: nat | id in woken ensures id in w0 && Due(w0[id], now) {
      var k :| 0 <= k < |woken| && woken[k] == id;
    }
  }

  // ---- choosing the next task ----

  /** The highest non-empty level from `least` on. */
  function TopLevel(r: Runnable, least: nat, l: nat): (t: Option<Level>)
    requires l <= LEVELS
    ensures t.Some? ==> least <= t.value < l && r[t.value] != [] && forall k :: t.value < k < l ==> r[k] == []
    ensures t.None? ==> forall k :: least <= k < l ==> r[k] == []
    decreases l
  {
    if l <= least then None
    else if r[l - 1] != [] then Some(l - 1)
    else TopLevel(r, least, l - 1)
  }

  function Top(r: Runnable, least: nat): (t: Option<Level>)
    ensures t.Some? ==> least <= t.value && r[t.value] != [] && forall k :: t.value < k < LEVELS ==> r[k] == []
    ensures t.None? ==> forall k :: least <= k < LEVELS ==> r[k] == []
  {
    TopLevel(r, least, LEVELS)
  }

  /** Nobody can take the place of `current`: no task is runnable, or for a task that yields none of its level
      or above. */
  ghost predicate GoesOn(r: Runnable, current: Task, sw: Switch) {
    forall l: nat :: l < LEVELS && (sw.Yield? ==> current.level <= l) ==> r[l] == []
  }

  /** A task that blocks or sleeps goes on exactly when no task is runnable. */
  lemma {:induction false} NobodyToRun(r: Runnable, current: Task, sw: Switch)
    requires !sw.Yield?
    ensures GoesOn(r, current, sw) <==> BagOf(r) == multiset{}
  {
    assert LEVELS == 4;
    if GoesOn(r, current, sw) {
      assert r == [[], [], [], []];
      NobodyRuns();
    } else {
      var l: nat :| l < LEVELS && r[l] != [];
      PopRemoves(r, l);
    }
  }

  /** The runnable tasks `r` become `r'` as `next` takes the place of `current`: it was the first of its level,
      no level above had a task, and a task that yields is last in its own level then. */
  ghost predicate Replaces(r: Runnable, current: Task, sw: Switch, next: Task, r': Runnable) {
    if GoesOn(r, current, sw) then next == current && r' == r else
    && (sw.Yield? ==> current.level <= next.level)
    && (forall l: nat :: next.level < l < LEVELS ==> r[l] == [])
    && r[next.level] != [] && next == r[next.level][0]
    && r' == if sw.Yield? then Push(Popped(r, next.level), current) else Popped(r, next.level)
  }

  /** A task that blocks or sleeps then waits under the id `id`: for its channel, for a deadline so many ticks
      from `now`, or for both. */
  ghost predicate PutsAside(r: Runnable, current: Task, sw: Switch, waits: Waits, id: nat, now: nat, waits': Waits) {
    if GoesOn(r, current, sw) then waits' == waits else
    match sw
    case Yield => waits' == waits
    case Blocked(c, None) => waits' == waits[id := Wait(current, Some(c), None)]
    case Blocked(c, Some(ticks)) => waits' == waits[id := Wait(current, Some(c), Some(now + ticks))]
    case Sleep(ticks) => waits' == waits[id := Wait(current, None, Some(now + ticks))]
  }

  /** The search from the top down finds the task that runs next. */
  lemma {:induction false} TopReplaces(r: Runnable, current: Task, sw: Switch)
    ensures var least := if sw.Yield? then current.level else 0;
            match Top(r, least)
            case None => GoesOn(r, current, sw)
            case Some(l) => !GoesOn(r, current, sw) && r[l][0].level == l && (sw.Yield? ==> current.level <= l)
                            && forall k: nat :: l < k < LEVELS ==> r[k] == []
  {
    hide TopLevel;
  }

  function Popped(r: Runnable, l: Level): Runnable
    requires r[l] != []
  {
    r[l := r[l][1..]]
  }

  class TaskQueue {
    var pendingIdGen: nat
    var runnable: Runnable
    var pending: map<nat, Task>
    var blocks: Blocks
    var timeouts: seq<Timeout>
    ghost var waits: Waits

    ghost predicate Valid()
      reads this
    {
      && WaitingOk(blocks, timeouts, waits, pendingIdGen)
      && pending == TasksOf(waits)
    }

    /** All tasks of the queue. */
    ghost function All(): multiset<Task>
      reads this
    {
      BagOf(runnable) + Waiting(waits, pendingIdGen)
    }

    constructor ()
      ensures Valid() && All() == multiset{} && waits == map[] && runnable == [[], [], [], []]
    {
      pendingIdGen := 0;
      runnable := [[], [], [], []];
      pending := map[];
      blocks := map[];
      timeouts := [];
      waits := map[];
      new;
      NobodyRuns();
    }

    method Enqueue(t: Task)
      requires Valid()
      modifies this`runnable
      ensures Valid() && runnable == Push(old(runnable), t) && All() == old(All()) + multiset{t}
    {
      hide WaitingOk, BagOf, Waiting;
      PushAdds(runnable, t);
      runnable := Push(runnable, t);
    }

    /** The first task of the highest level from `least` on. */
    method PopTop(least: nat) returns (next: Option<Task>)
      modifies this`runnable
      ensures match Top(old(runnable), least)
              case None => next == None && runnable == old(runnable)
              case Some(l) => next == Some(old(runnable)[l][0]) && runnable == Popped(old(runnable), l)
                              && BagOf(old(runnable)) == BagOf(runnable) + multiset{next.value}
    {
      hide BagOf;
      var l: nat := LEVELS;
      while least < l
        invariant l <= LEVELS
        invariant TopLevel(runnable, least, LEVELS) == TopLevel(runnable, least, l)
      {
        l := l - 1;
        if runnable[l] != [] {
          PopRemoves(runnable, l);
          next := Some(runnable[l][0]);
          runnable := runnable[l := runnable[l][1..]];
          return;
        }
      }
      return None;
    }

    /** Puts a task aside under a fresh id. */
    method Suspend(t: Task, chan: Option<Channel>, deadline: Option<nat>)
      requires Valid() && (chan.Some? || deadline.Some?)
      modifies this`pendingIdGen, this`pending, this`blocks, this`timeouts, this`waits
      ensures Valid() && waits == old(waits)[old(pendingIdGen) := Wait(t, chan, deadline)] && old(pendingIdGen) !in old(waits)
      ensures pendingIdGen == old(pendingIdGen) + 1
      ensures All() == old(All()) + multiset{t}
    {
      hide BagOf, Waiting, BlocksOk, TimeoutsOk, TasksOf, BlocksWith, InsertTimeout;
      TasksWith(waits, pendingIdGen, Wait(t, chan, deadline));
      var id := pendingIdGen;
      ghost var x := Wait(t, chan, deadline);
      SuspendAdds(waits, id, x);
      TimeoutKeeps(timeouts, waits, id, x);
      match chan {
        case Some(c) =>
          BlockedKeeps(blocks, timeouts, waits, id, t, c, deadline);
          blocks := BlocksWith(blocks, c, id);
        case None =>
          SleptKeeps(blocks, timeouts, waits, id, t, deadline);
      }
      if deadline.Some? {
        timeouts := InsertTimeout(timeouts, Timeout(deadline.value, id, chan));
      }
      pendingIdGen := pendingIdGen + 1;
      pending := pending[id := t];
      waits := waits[id := x];
    }

    /** TaskQueue::dequeue: the next task, or the current one if there is none to switch to. */
    method Dequeue(current: Task, sw: Switch, now: nat) returns (next: Task)
      requires Valid()
      modifies this
      ensures Valid() && old(All()) + multiset{current} == All() + multiset{next}
      ensures Replaces(old(runnable), current, sw, next, runnable)
      ensures PutsAside(old(runnable), current, sw, old(waits), old(pendingIdGen), now, waits)
      ensures sw.Yield? ==> next.level >= current.level
      ensures forall l: nat :: next.level < l < LEVELS ==> old(runnable)[l] == []
    {
      hide WaitingOk, BagOf, Waiting, Top, Push, Popped;
      TopReplaces(runnable, current, sw);
      var t := PopTop(if sw.Yield? then current.level else 0);
      if t.None? {
        return current;
      }
      match sw {
        case Blocked(chan, None) =>
          Suspend(current, Some(chan), None);
        case Blocked(chan, Some(ticks)) =>
          Suspend(current, Some(chan), Some(now + ticks));
        case Sleep(ticks) =>
          Suspend(current, None, Some(now + ticks));
        case Yield =>
          Enqueue(current);
      }
      return t.value;
    }

    /** Makes a pending task runnable. */
    method Wake(id: nat)
      requires pending == TasksOf(waits) && id in waits && WaitsOk(waits, pendingIdGen)
      modifies this`runnable, this`pending, this`waits
      ensures waits == old(waits) - {id} && pending == TasksOf(waits)
      ensures runnable == Push(old(runnable), old(waits)[id].task) && All() == old(All())
    {
      hide BagOf, Waiting, TasksOf;
      TasksWithout(waits, id);
      WaitingRemove(waits, id, pendingIdGen);
      var task := pending[id];
      PushAdds(runnable, task);
      pending := pending - {id};
      runnable := Push(runnable, task);
      waits := waits - {id};
    }

    /** The waiters of a channel are exactly the tasks that block on it, in the order in which they came. */
    lemma WaitersExact(chan: Channel)
      requires Valid()
      ensures Increasing(Waiters(blocks, chan))
      ensures forall id: nat :: id in Waiters(blocks, chan) <==> id in waits && waits[id].chan == Some(chan)
      ensures forall i :: 0 <= i < |Waiters(blocks, chan)| ==> Waiters(blocks, chan)[i] in waits
    {
      hide TimeoutsOk;
      assert BlockOk(blocks, waits, chan);
      if chan in blocks {
        BlockListed(blocks, timeouts, waits, pendingIdGen, chan);
      }
    }

    /** Every pending task can be woken: by its channel, by a timeout, or by both. A timeout of a task
        that is no longer pending belongs to nobody. */
    lemma WakeSources(id: nat)
      requires Valid()
      ensures id in pending ==>
                && (waits[id].chan.Some? || waits[id].deadline.Some?)
                && (waits[id].chan.Some? ==> id in Waiters(blocks, waits[id].chan.value))
                && (waits[id].deadline.Some? ==> Timeout(waits[id].deadline.value, id, waits[id].chan) in timeouts)
      ensures id !in pending ==> forall c: Channel :: id !in Waiters(blocks, c)
    {
      hide Sorted;
      TasksWithout(waits, id);
      forall c: Channel ensures id in Waiters(blocks, c) <==> id in waits && waits[id].chan == Some(c) {
        assert BlockOk(blocks, waits, c);
      }
    }

    /** TaskQueue::release: exactly the waiters of `chan` become runnable, in order. */
    method Release(chan: Channel) returns (ghost woken: seq<nat>)
      requires Valid()
      modifies this`runnable, this`pending, this`blocks, this`waits
      ensures Valid() && All() == old(All())
      ensures Increasing(woken) && (forall id: nat :: id in woken <==> id in old(waits) && old(waits)[id].chan == Some(chan))
      ensures waits == Without(old(waits), woken) && (forall i :: 0 <= i < |woken| ==> woken[i] in old(waits))
      ensures runnable == PushAll(old(runnable), TasksAt(old(waits), woken))
    {
      hide BagOf, Waiting, TasksOf, BlocksOk, TimeoutsOk, Without, PushAll, Push;
      ghost var w0 := waits;
      woken := Waiters(blocks, chan);
      WaitersExact(chan);
      WithoutNone(waits, woken, runnable);
      if chan !in blocks {
        return;
      }
      var ids := blocks[chan];
      BlockListed(blocks, timeouts, waits, pendingIdGen, chan);
      ReleaseKeeps(blocks, timeouts, waits, pendingIdGen, chan);
      blocks := blocks - {chan};
      for i := 0 to |ids|
        invariant blocks == old(blocks) - {chan}
        invariant waits == Without(w0, ids[..i]) && pending == TasksOf(waits) && All() == old(All())
        invariant runnable == PushAll(old(runnable), TasksAt(w0, ids[..i]))
      {
        StillWaits(w0, ids, i, pendingIdGen);
        TasksWithout(waits, ids[i]);
        if ids[i] in pending {
          WithoutMore(w0, ids, i);
          PushMore(old(runnable), w0, ids, i);
          Wake(ids[i]);
        }
      }
      assert ids[..|ids|] == ids;
    }

    /** Handles the first timeout: wakes its task if that is still pending. */
    method Expire()
      requires Valid() && timeouts != []
      modifies this`runnable, this`pending, this`blocks, this`timeouts, this`waits
      ensures Valid() && All() == old(All())
      ensures timeouts == old(timeouts)[1..] && waits == old(waits) - {old(timeouts)[0].id}
      ensures runnable == (if old(timeouts)[0].id in old(waits) then Push(old(runnable), old(waits)[old(timeouts)[0].id].task) else old(runnable))
    {
      hide BagOf, Waiting, TasksOf, BlocksOk, TimeoutsOk, Push, BlocksWithout;
      var x := timeouts[0];
      ExpireKeeps(blocks, timeouts, waits, pendingIdGen);
      TasksWithout(waits, x.id);
      if x.id in pending {
        Wake(x.id);
      } else {
        assert waits - {x.id} == waits;
      }
      blocks := BlocksWithout(blocks, x);
      timeouts := timeouts[1..];
    }

    /** TaskQueue::elapse: exactly the tasks whose deadline has come become runnable, the earliest first. */
    method Elapse(now: nat) returns (ghost woken: seq<nat>)
      requires Valid()
      modifies this`runnable, this`pending, this`blocks, this`timeouts, this`waits
      ensures Valid() && All() == old(All())
      ensures Distinct(woken) && (forall id: nat :: id in woken <==> id in old(waits) && Due(old(waits)[id], now))
      ensures waits == Without(old(waits), woken) && (forall i :: 0 <= i < |woken| ==> woken[i] in old(waits))
      ensures InOrder(old(waits), woken)
      ensures runnable == PushAll(old(runnable), TasksAt(old(waits), woken))
    {
      hide BagOf, Waiting, TasksOf, WaitingOk, Push, PushAll, Without;
      ghost var w0 := waits;
      woken := [];
      WithoutNone(waits, [], runnable);
      while timeouts != [] && timeouts[0].deadline <= now
        invariant Valid() && All() == old(All())
        invariant Woken(w0, waits, timeouts, woken, now)
        invariant runnable == PushAll(old(runnable), TasksAt(w0, woken))
        decreases |timeouts|
      {
        var id := timeouts[0].id;
        WokenNext(blocks, timeouts, w0, waits, pendingIdGen, woken, now, old(runnable));
        Expire();
        woken := if id in w0 && id !in woken then woken + [id] else woken;
      }
      WokenAll(blocks, timeouts, w0, waits, pendingIdGen, woken, now);
    }
  }

  lemma {:induction false} BlockListed(blocks: Blocks, ts: seq<Timeout>, waits: Waits, gen: nat, c: Channel)
    requires WaitingOk(blocks, ts, waits, gen) && c in blocks
    ensures Increasing(blocks[c]) && forall i :: 0 <= i < |blocks[c]| ==> blocks[c][i] in waits
  {
    assert BlockOk(blocks, waits, c);
    forall i | 0 <= i < |blocks[c]| ensures blocks[c][i] in waits {
      assert blocks[c][i] in blocks[c];
    }
  }

  lemma {:induction false} StillWaits(waits: Waits, ids: seq<nat>, i: nat, gen: nat)
    requires i < |ids| && Increasing(ids) && (forall k :: 0 <= k < |ids| ==> ids[k] in waits) && WaitsOk(waits, gen)
    ensures ids[i] in Without(waits, ids[..i]) && Without(waits, ids[..i])[ids[i]] == waits[ids[i]]
    ensures WaitsOk(Without(waits, ids[..i]), gen)
  {
  }

  lemma NobodyRuns()
    ensures BagOf([[], [], [], []]) == multiset{}
  {
    var r: seq<seq<Task>> := [[], [], [], []];
    assert r[..3][..2] == r[..2] && r[..2][..1] == r[..1] && r[..1][..0] == [];
    assert BagOf(r[..1]) == multiset{} && BagOf(r[..2]) == multiset{} && BagOf(r[..3]) == multiset{};
  }

  lemma {:induction false} SuspendAdds(waits: Waits, id: nat, x: Wait)
    requires WaitsOk(waits, id)
    ensures Waiting(waits[id := x], id + 1) == Waiting(waits, id) + multiset{x.task}
  {
    WaitingSame(waits, waits[id := x], id);
  }

  // ---- the scheduler ----

  /** The tasks that run on some processor. */
  ghost function Running(cpus: seq<Option<Task>>): multiset<Task> {
    if cpus == [] then multiset{} else
    Running(cpus[..|cpus| - 1]) + One(cpus[|cpus| - 1])
  }

  ghost function One(t: Option<Task>): multiset<Task> {
    match t case None => multiset{} case Some(t) => multiset{t}
  }

  lemma {:induction false} RunningLast(cpus: seq<Option<Task>>, k: nat)
    requires k + 1 == |cpus|
    ensures Running(cpus) == Running(cpus[..k]) + One(cpus[k])
  {
  }

  lemma {:induction false} RunningPut(cpus: seq<Option<Task>>, cpu: nat, t: Task)
    requires cpu < |cpus|
    ensures Running(cpus[cpu := Some(t)]) == Running(cpus[cpu := None]) + multiset{t}
  {
    hide Running;
    var k := |cpus| - 1;
    var with, without := cpus[cpu := Some(t)], cpus[cpu := None];
    RunningLast(with, k);
    RunningLast(without, k);
    if cpu < k {
      RunningPut(cpus[..k], cpu, t);
      assert with[..k] == cpus[..k][cpu := Some(t)] && without[..k] == cpus[..k][cpu := None];
    } else {
      assert with[..k] == cpus[..k] == without[..k];
    }
  }

  class TaskScheduler {
    const queue: TaskQueue
    var cpus: seq<Option<Task>>
    var taskIdGen: nat
    ghost var created: seq<Task>

    /** Every task ever created is in exactly one place: on a processor, runnable or pending. */
    ghost predicate Valid()
      reads this, queue
    {
      && queue.Valid()
      && |created| == taskIdGen
      && (forall i :: 0 <= i < |created| ==> created[i].id == i)
      && multiset(created) == Running(cpus) + queue.All()
    }

    constructor (n: nat)
      ensures Valid() && fresh(queue) && cpus == seq(n, _ => None) && created == []
    {
      queue := new TaskQueue();
      cpus := seq(n, _ => None);
      taskIdGen := 0;
      created := [];
      new;
      NobodyRunning(cpus);
    }

    method Add(level: Level) returns (id: nat)
      requires Valid()
      modifies this`taskIdGen, this`created, queue
      ensures Valid() && id == old(taskIdGen) && created == old(created) + [Task(id, level)]
      ensures cpus == old(cpus) && queue.runnable == Push(old(queue.runnable), Task(id, level)) && queue.waits == old(queue.waits)
    {
      hide TaskQueue.All, TaskQueue.Valid, Running;
      id := taskIdGen;
      taskIdGen := taskIdGen + 1;
      queue.Enqueue(Task(id, level));
      created := created + [Task(id, level)];
    }

    /** The task that a processor runs, or the new one that its context becomes. */
    static function TaskOn(running: Option<Task>, gen: nat): Task {
      match running case Some(t) => t case None => Task(gen, 0)
    }

    /** The task that a processor runs, taken off it; a context without a task becomes one. */
    method Take(cpu: nat) returns (t: Task)
      requires Valid() && cpu < |cpus|
      modifies this`cpus, this`taskIdGen, this`created
      ensures t == TaskOn(old(cpus)[cpu], old(taskIdGen))
      ensures cpus == old(cpus)[cpu := None]
      ensures created == (if old(cpus)[cpu] == Some(t) then old(created) else old(created) + [Task(old(taskIdGen), 0)])
      ensures queue.Valid() && |created| == taskIdGen && (forall i :: 0 <= i < |created| ==> created[i].id == i)
      ensures multiset(created) == Running(cpus) + queue.All() + multiset{t}
    {
      hide TaskQueue.All, TaskQueue.Valid, Running;
      match cpus[cpu] {
        case Some(r) =>
          RunningPut(cpus, cpu, r);
          assert cpus[cpu := Some(r)] == cpus;
          t := r;
        case None =>
          assert cpus[cpu := None] == cpus;
          t := Task(taskIdGen, 0);
          taskIdGen := taskIdGen + 1;
          created := created + [t];
      }
      cpus := cpus[cpu := None];
    }

    /** The processor runs `t`, which was nowhere. */
    method Put(cpu: nat, t: Task)
      requires cpu < |cpus| && cpus[cpu] == None
      requires queue.Valid() && |created| == taskIdGen && (forall i :: 0 <= i < |created| ==> created[i].id == i)
      requires multiset(created) == Running(cpus) + queue.All() + multiset{t}
      modifies this`cpus
      ensures Valid() && cpus == old(cpus)[cpu := Some(t)]
    {
      hide TaskQueue.All, TaskQueue.Valid, Running;
      assert cpus[cpu := None] == cpus;
      RunningPut(cpus, cpu, t);
      cpus := cpus[cpu := Some(t)];
    }

    /** TaskScheduler::switch, with what the scheduling operation decided: the processor runs the task that
        the queue chose, and the one it ran is runnable or pending as it asked. */
    method SwitchTask(cpu: nat, sw: Option<Switch>, now: nat)
      requires Valid() && cpu < |cpus|
      modifies this, queue
      ensures Valid()
      ensures |cpus| == |old(cpus)| && cpus == old(cpus)[cpu := cpus[cpu]] && cpus[cpu].Some?
      ensures created == if old(cpus)[cpu].Some? then old(created) else old(created) + [Task(old(taskIdGen), 0)]
      ensures var t := TaskOn(old(cpus)[cpu], old(taskIdGen));
              Decides(old(queue.runnable), old(queue.waits), old(queue.pendingIdGen), t, sw, now, cpus[cpu].value, queue.runnable, queue.waits)
      ensures sw == Some(Yield) ==> cpus[cpu].value.level >= TaskOn(old(cpus)[cpu], old(taskIdGen)).level
      ensures sw.Some? ==> forall l: nat :: cpus[cpu].value.level < l < LEVELS ==> old(queue.runnable)[l] == []
    {
      hide TaskQueue.All, TaskQueue.Valid, Running, Replaces, PutsAside;
      var t := Take(cpu);
      var next := Decide(t, sw, now);
      Put(cpu, next);
    }

    /** What a switch comes to; without one the task stays. */
    static ghost predicate Decides(r: Runnable, waits: Waits, id: nat, t: Task, sw: Option<Switch>, now: nat, next: Task,
        r': Runnable, waits': Waits) {
      match sw
      case None => next == t && r' == r && waits' == waits
      case Some(sw) => Replaces(r, t, sw, next, r') && PutsAside(r, t, sw, waits, id, now, waits')
    }

    /** The choice between a task off its processor and the runnable ones. */
    method Decide(t: Task, sw: Option<Switch>, now: nat) returns (next: Task)
      requires queue.Valid() && multiset(created) == Running(cpus) + queue.All() + multiset{t}
      modifies queue
      ensures queue.Valid() && multiset(created) == Running(cpus) + queue.All() + multiset{next}
      ensures Decides(old(queue.runnable), old(queue.waits), old(queue.pendingIdGen), t, sw, now, next, queue.runnable, queue.waits)
      ensures sw == Some(Yield) ==> next.level >= t.level
      ensures sw.Some? ==> forall l: nat :: next.level < l < LEVELS ==> old(queue.runnable)[l] == []
    {
      hide TaskQueue.All, TaskQueue.Valid, Running, Replaces, PutsAside;
      next := t;
      assert multiset(created) == Running(cpus) + (queue.All() + multiset{t});
      if sw.Some? {
        next := queue.Dequeue(t, sw.value, now);
      }
      assert multiset(created) == Running(cpus) + (queue.All() + multiset{next});
    }

    /** Exactly the waiters of the channel become runnable, in order. */
    method ReleaseChannel(chan: Channel) returns (ghost woken: seq<nat>)
      requires Valid()
      modifies queue
      ensures Valid() && cpus == old(cpus) && created == old(created)
      ensures Increasing(woken) && (forall id: nat :: id in woken <==> id in old(queue.waits) && old(queue.waits)[id].chan == Some(chan))
      ensures queue.waits == Without(old(queue.waits), woken) && (forall i :: 0 <= i < |woken| ==> woken[i] in old(queue.waits))
      ensures queue.runnable == PushAll(old(queue.runnable), TasksAt(old(queue.waits), woken))
    {
      hide TaskQueue.All, TaskQueue.Valid, Running, PushAll, Without, Increasing;
      woken := queue.Release(chan);
    }

    /** Exactly the tasks whose deadline has come become runnable, the earliest first. */
    method Tick(now: nat) returns (ghost woken: seq<nat>)
      requires Valid()
      modifies queue
      ensures Valid() && cpus == old(cpus) && created == old(created)
      ensures Distinct(woken) && (forall id: nat :: id in woken <==> id in old(queue.waits) && Due(old(queue.waits)[id], now))
      ensures queue.waits == Without(old(queue.waits), woken) && (forall i :: 0 <= i < |woken| ==> woken[i] in old(queue.waits))
      ensures InOrder(old(queue.waits), woken)
      ensures queue.runnable == PushAll(old(queue.runnable), TasksAt(old(queue.waits), woken))
    {
      hide TaskQueue.All, TaskQueue.Valid, Running, PushAll, Without, InOrder, Distinct;
      woken := queue.Elapse(now);
    }
  }

  lemma {:induction false} NobodyRunning(cpus: seq<Option<Task>>)
    requires forall i :: 0 <= i < |cpus| ==> cpus[i] == None
    ensures Running(cpus) == multiset{}
  {
    if cpus != [] {
      NobodyRunning(cpus[..|cpus| - 1]);
    }
  }

  /** Tasks have distinct ids, so that no task is in two places. */
  lemma {:induction false} OnePlaceEach(created: seq<Task>, places: multiset<Task>, a: Task, b: Task)
    requires (forall i :: 0 <= i < |created| ==> created[i].id == i) && multiset(created) == places
    requires a in places && b in places && a.id == b.id
    ensures a == b && places[a] == 1
  {
    assert a in created && b in created;
    var i :| 0 <= i < |created| && created[i] == a;
    var j :| 0 <= j < |created| && created[j] == b;
    assert created == created[..i] + [a] + created[i + 1..];
    assert forall k :: 0 <= k < |created| && k != i ==> created[k] != a;
    assert a !in created[..i] && a !in created[i + 1..];
  }

  // ---- order of scheduling ----

  /** A processor's task and the runnable ones. */
  datatype Turn = Turn(current: Task, runnable: Runnable)

  ghost predicate YieldAt(turns: seq<Turn>, i: nat)
    requires i + 1 < |turns|
  {
    Replaces(turns[i].runnable, turns[i].current, Yield, turns[i + 1].current, turns[i + 1].runnable)
  }

  /** On a single processor every task only yields. */
  ghost predicate OnlyYields(turns: seq<Turn>) {
    turns != [] && forall i: nat :: i + 1 < |turns| ==> YieldAt(turns, i)
  }

  /** Among tasks of the highest level that only yield, everybody runs in turn: after `k` yields the
      running task and the queue of its level are those of the start, moved on by `k`. Whoever is at
      place `i` of the queue runs after `i + 1` yields. */
  lemma {:induction false} RoundRobin(turns: seq<Turn>, k: nat)
    requires OnlyYields(turns) && k < |turns|
    requires var Turn(current, r) := turns[0];
             k <= |r[current.level]| && forall l: nat :: current.level < l < LEVELS ==> r[l] == []
    ensures var Turn(current, r) := turns[0];
            var q := r[current.level];
            && turns[k].current == (if k == 0 then current else q[k - 1])
            && turns[k].runnable == r[current.level := q[k..] + ([current] + q)[..k]]
  {
    hide Replaces, Push;
    var Turn(current, r) := turns[0];
    var l, q := current.level, r[current.level];
    if k == 0 {
      assert q[0..] + ([current] + q)[..0] == q;
      assert r[l := q] == r;
    } else {
      RoundRobin(turns, k - 1);
      assert YieldAt(turns, k - 1);
      var Turn(c, r1) := turns[k - 1];
      Rotate(current, q, k);
      var s := q[k - 1..] + ([current] + q)[..k - 1];
      assert r1 == r[l := s];
      assert c == ([current] + q)[k - 1];
      OneYield(r1, c, turns[k].current, turns[k].runnable);
      UpdateTwice(r, l, s, q[k..] + ([current] + q)[..k]);
    }
  }

  lemma UpdateTwice(r: seq<seq<Task>>, l: nat, a: seq<Task>, b: seq<Task>)
    requires l < |r|
    ensures r[l := a][l := b] == r[l := b]
  {
  }

  lemma {:induction false} Rotate(t: Task, q: seq<Task>, k: nat)
    requires 0 < k <= |q|
    ensures var s := q[k - 1..] + ([t] + q)[..k - 1];
            s != [] && s[0] == q[k - 1] && s[1..] + [([t] + q)[k - 1]] == q[k..] + ([t] + q)[..k]
  {
  }

  lemma {:induction false} OneYield(r: Runnable, c: Task, next: Task, r': Runnable)
    requires Replaces(r, c, Yield, next, r') && r[c.level] != [] && forall k: nat :: c.level < k < LEVELS ==> r[k] == []
    ensures next == r[c.level][0] && r' == r[c.level := r[c.level][1..] + [c]]
  {
    assert !GoesOn(r, c, Yield);
  }
}
