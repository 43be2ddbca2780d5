/** Reference counts and the order of the cached sectors, fs/volume.rs. */
module CacheOrder {
  import opened Bytes
  import opened Volume

  // ---- references ----

  /** How many references to sector `s` are out. */
  function Refs(lent: seq<Buffer>, s: nat): nat {
    if Position(lent, s) < |lent| then lent[Position(lent, s)].refs else 0
  }

  ghost predicate DistinctSectors(bs: seq<Buffer>) {
    forall i, j :: 0 <= i < j < |bs| ==> bs[i].sector != bs[j].sector
  }

  lemma {:induction false} SoundDistinct(c: Cache, size: nat)
    requires Sound(c, size)
    ensures DistinctSectors(c.lent) && DistinctSectors(c.cached)
  {
    forall i, j | 0 <= i < j < |c.lent| ensures c.lent[i].sector != c.lent[j].sector {
      assert c.lent[i] in Buffers(c) && c.lent[j] in Buffers(c);
      if c.lent[i] == c.lent[j] {
        TwoIndices(c.lent, i, j);
      }
    }
    forall i, j | 0 <= i < j < |c.cached| ensures c.cached[i].sector != c.cached[j].sector {
      assert c.cached[i] in Buffers(c) && c.cached[j] in Buffers(c);
      if c.cached[i] == c.cached[j] {
        TwoIndices(c.cached, i, j);
      }
    }
  }

  lemma {:induction false} SoundApart(c: Cache, size: nat, i: nat)
    requires Sound(c, size) && i < |c.lent|
    ensures forall d :: d in c.cached ==> d.sector != c.lent[i].sector
  {
    var b := c.lent[i];
    assert b in c.lent && multiset(c.lent)[b] >= 1 && b in Buffers(c);
    forall d | d in c.cached ensures d.sector != b.sector {
      assert multiset(c.cached)[d] >= 1 && d in Buffers(c);
      assert d == b ==> Buffers(c)[b] >= 2;
    }
  }

  /** The references of a sector are those of its buffer. */
  lemma {:induction false} RefsOf(lent: seq<Buffer>, k: nat)
    requires DistinctSectors(lent) && k < |lent|
    ensures Refs(lent, lent[k].sector) == lent[k].refs && Position(lent, lent[k].sector) == k
  {
    assert lent[k] in lent;
  }

  lemma {:induction false} NoRefs(lent: seq<Buffer>, s: nat)
    requires forall k :: 0 <= k < |lent| ==> lent[k].sector != s
    ensures Refs(lent, s) == 0
  {
  }

  /** A buffer has been exchanged for one of the same sector. */
  lemma {:induction false} RefsChanged(lent: seq<Buffer>, i: nat, b: Buffer, t: nat)
    requires DistinctSectors(lent) && i < |lent| && b.sector == lent[i].sector
    ensures Refs(lent[i := b], t) == if t == b.sector then b.refs else Refs(lent, t)
    ensures DistinctSectors(lent[i := b])
  {
    var k := Position(lent, t);
    if k < |lent| {
      RefsOf(lent[i := b], k);
      RefsOf(lent, k);
    } else {
      assert forall j :: 0 <= j < |lent| ==> lent[j] in lent;
      NoRefs(lent[i := b], t);
    }
  }

  lemma {:induction false} RefsAppended(lent: seq<Buffer>, b: Buffer, t: nat)
    requires DistinctSectors(lent) && (forall x :: x in lent ==> x.sector != b.sector)
    ensures Refs(lent + [b], t) == if t == b.sector then b.refs else Refs(lent, t)
  {
    var l, k := lent + [b], Position(lent, t);
    assert DistinctSectors(l);
    if t == b.sector {
      RefsOf(l, |lent|);
    } else if k < |lent| {
      RefsOf(l, k);
    } else {
      assert forall j :: 0 <= j < |lent| ==> lent[j] in lent;
      NoRefs(l, t);
    }
  }

  lemma {:induction false} BorrowedCounts(c: Cache, i: nat, io: Io, t: nat)
    requires DistinctSectors(c.lent) && i < |c.lent|
    ensures var r := Borrowed(c, i, io);
            Refs(r.0.lent, t) == Refs(c.lent, t) + if r.1 && t == c.lent[i].sector then 1 else 0
  {
    hide Initialized, Refs, DistinctSectors;
    RefsOf(c.lent, i);
    RefsChanged(c.lent, i, Borrowed(c, i, io).0.lent[i], t);
  }

  lemma {:induction false} TakenCounts(c: Cache, b: Buffer, rest: seq<Buffer>, io: Io, t: nat)
    requires DistinctSectors(c.lent) && Position(c.lent, b.sector) == |c.lent|
    ensures var r := Taken(c, b, rest, io);
            Refs(r.0.lent, t) == Refs(c.lent, t) + if r.1 && t == b.sector then 1 else 0
  {
    hide Initialized, Refs, DistinctSectors;
    var r := Taken(c, b, rest, io);
    if r.1 {
      NotLent(c.lent, b.sector);
      RefsAppended(c.lent, r.0.lent[|c.lent|], t);
    }
  }

  /** A lookup counts one more reference to its sector exactly when it succeeds, and no other. */
  lemma {:induction false} LookedCounts(c: Cache, s: nat, io: Io, size: nat, t: nat)
    requires Sound(c, size)
    ensures var r := Looked(c, s, io, size);
            Refs(r.0.lent, t) == Refs(c.lent, t) + if r.1 && t == s then 1 else 0
  {
    hide Sound, Refs, DistinctSectors, Taken, Borrowed;
    SoundDistinct(c, size);
    var i, k, n := Position(c.lent, s), Position(c.cached, s), |c.cached| - 1;
    if i < |c.lent| {
      BorrowedCounts(c, i, io, t);
    } else if k < |c.cached| {
      TakenCounts(c, c.cached[k], Without(c.cached, k), io, t);
    } else if EXPECTED_CACHE_SIZE <= |c.cached| {
      TakenCounts(c, c.cached[n].(sector := s), c.cached[..n], io, t);
    } else {
      TakenCounts(c, NewBuffer(s, size), c.cached, io, t);
    }
  }

  lemma {:induction false} NotLent(lent: seq<Buffer>, s: nat)
    requires Position(lent, s) == |lent|
    ensures Refs(lent, s) == 0
  {
  }

  lemma {:induction false} SwapRemoved(lent: seq<Buffer>, i: nat, t: nat)
    requires DistinctSectors(lent) && i < |lent|
    ensures Refs(lent[i := lent[|lent| - 1]][..|lent| - 1], t) == if t == lent[i].sector then 0 else Refs(lent, t)
  {
    var n := |lent| - 1;
    var l := lent[i := lent[n]][..n];
    assert DistinctSectors(l);
    var k := Position(lent, t);
    if t == lent[i].sector || k == |lent| {
      assert forall j :: 0 <= j < |lent| ==> lent[j] in lent;
      NoRefs(l, t);
    } else {
      RefsOf(lent, k);
      RefsOf(l, if k == n then i else k);
    }
  }

  /** A dropped reference is counted off its sector, and no other; the buffer stays lent while one is left. */
  lemma {:induction false} DroppedCounts(c: Cache, i: nat, size: nat, t: nat)
    requires Sound(c, size) && i < |c.lent|
    ensures c.lent[i].refs >= 1
    ensures Refs(Dropped(c, i).lent, t) == Refs(c.lent, t) - if t == c.lent[i].sector then 1 else 0
    ensures |Dropped(c, i).lent| == if c.lent[i].refs == 1 then |c.lent| - 1 else |c.lent|
  {
    hide Sound, Refs, DistinctSectors;
    LentReferenced(c, i, size);
    SoundDistinct(c, size);
    RefsOf(c.lent, i);
    if c.lent[i].refs == 1 {
      SwapRemoved(c.lent, i, t);
    } else {
      RefsChanged(c.lent, i, c.lent[i].(refs := c.lent[i].refs - 1), t);
    }
  }

  lemma LentReferenced(c: Cache, i: nat, size: nat)
    requires Sound(c, size) && i < |c.lent|
    ensures c.lent[i].refs >= 1
  {
    hide Coherent;
    assert c.lent[i] in c.lent;
  }

  // ---- which buffer is recycled ----

  /** When `s` was put in front of the cached sectors for the last time; 0 for never. */
  function Last(pushed: seq<nat>, s: nat): (n: nat)
    ensures n <= |pushed|
  {
    if pushed == [] then 0
    else if pushed[|pushed| - 1] == s then |pushed|
    else Last(pushed[..|pushed| - 1], s)
  }

  lemma {:induction false} LastMore(pushed: seq<nat>, s: nat, t: nat)
    ensures Last(pushed + [s], t) == if t == s then |pushed| + 1 else Last(pushed, t)
  {
    assert (pushed + [s])[..|pushed|] == pushed;
  }

  /** The cached sectors are in the order in which they were released, the last one first. */
  ghost predicate ByRelease(pushed: seq<nat>, cached: seq<Buffer>) {
    forall i, j :: 0 <= i < j < |cached| ==> Last(pushed, cached[i].sector) > Last(pushed, cached[j].sector)
  }

  lemma {:induction false} PushedFirst(pushed: seq<nat>, cached: seq<Buffer>, b: Buffer)
    requires ByRelease(pushed, cached) && (forall x :: x in cached ==> x.sector != b.sector)
    ensures ByRelease(pushed + [b.sector], [b] + cached)
  {
    var l := [b] + cached;
    forall i, j | 0 <= i < j < |l| ensures Last(pushed + [b.sector], l[i].sector) > Last(pushed + [b.sector], l[j].sector) {
      LastMore(pushed, b.sector, l[i].sector);
      LastMore(pushed, b.sector, l[j].sector);
      assert l[j] in cached && (i > 0 ==> l[i] in cached);
    }
  }

  lemma {:induction false} RemovedKeeps(pushed: seq<nat>, cached: seq<Buffer>, k: nat)
    requires ByRelease(pushed, cached) && k < |cached|
    ensures ByRelease(pushed, Without(cached, k))
  {
  }

  /** The sectors that a lookup puts in front: its own when it fails and the sector is not lent. */
  function PushedByLook(c: Cache, s: nat, io: Io, size: nat): seq<nat> {
    if Position(c.lent, s) == |c.lent| && !Looked(c, s, io, size).1 then [s] else []
  }

  /** A drop puts the sector in front when no reference is left. */
  function PushedByDrop(c: Cache, i: nat): seq<nat>
    requires i < |c.lent|
  {
    if c.lent[i].refs == 1 then [c.lent[i].sector] else []
  }

  lemma {:induction false} TakenOrder(pushed: seq<nat>, c: Cache, b: Buffer, rest: seq<Buffer>, io: Io)
    requires ByRelease(pushed, rest) && (forall x :: x in rest ==> x.sector != b.sector)
    ensures var r := Taken(c, b, rest, io); ByRelease(if r.1 then pushed else pushed + [b.sector], r.0.cached)
  {
    hide Initialized;
    var t := Initialized(b.(refs := 1), c.disk, io);
    PushedFirst(pushed, rest, t.0.(refs := 0));
  }

  lemma {:induction false} HitOrder(pushed: seq<nat>, c: Cache, k: nat, io: Io)
    requires DistinctSectors(c.cached) && ByRelease(pushed, c.cached) && k < |c.cached|
    ensures var r := Taken(c, c.cached[k], Without(c.cached, k), io);
            ByRelease(if r.1 then pushed else pushed + [c.cached[k].sector], r.0.cached)
  {
    hide Taken, ByRelease;
    RemovedKeeps(pushed, c.cached, k);
    TakenOrder(pushed, c, c.cached[k], Without(c.cached, k), io);
  }

  lemma {:induction false} MissOrder(pushed: seq<nat>, c: Cache, s: nat, b: Buffer, rest: seq<Buffer>, io: Io)
    requires ByRelease(pushed, c.cached) && Position(c.cached, s) == |c.cached| && b.sector == s
    requires rest == c.cached || (c.cached != [] && rest == c.cached[..|c.cached| - 1])
    ensures var r := Taken(c, b, rest, io); ByRelease(if r.1 then pushed else pushed + [s], r.0.cached)
  {
    hide Taken;
    assert forall x :: x in rest ==> x in c.cached;
    TakenOrder(pushed, c, b, rest, io);
  }

  lemma {:induction false} LookedOrder(pushed: seq<nat>, c: Cache, s: nat, io: Io, size: nat)
    requires Sound(c, size) && ByRelease(pushed, c.cached)
    ensures ByRelease(pushed + PushedByLook(c, s, io, size), Looked(c, s, io, size).0.cached)
  {
    hide Sound, Taken, ByRelease, DistinctSectors;
    SoundDistinct(c, size);
    assert pushed + [] == pushed;
    var k, n := Position(c.cached, s), |c.cached| - 1;
    if k < |c.cached| {
      HitOrder(pushed, c, k, io);
    } else if EXPECTED_CACHE_SIZE <= |c.cached| {
      MissOrder(pushed, c, s, c.cached[n].(sector := s), c.cached[..n], io);
    } else {
      MissOrder(pushed, c, s, NewBuffer(s, size), c.cached, io);
    }
  }

  lemma {:induction false} DroppedOrder(pushed: seq<nat>, c: Cache, i: nat, size: nat)
    requires Sound(c, size) && ByRelease(pushed, c.cached) && i < |c.lent| && c.lent[i].refs >= 1
    ensures ByRelease(pushed + PushedByDrop(c, i), Dropped(c, i).cached)
  {
    hide Sound, ByRelease;
    SoundApart(c, size, i);
    assert pushed + [] == pushed;
    if c.lent[i].refs == 1 {
      PushedFirst(pushed, c.cached, c.lent[i].(refs := 0));
    }
  }

  // ---- runs ----

  /** What clients of the cache do. */
  datatype Event = Look(s: nat, io: Io) | Store(i: nat, off: nat, data: seq<byte>) | Drop(i: nat) {
    predicate Enabled(c: Cache) {
      match this
      case Look(_, _) => true
      case Store(i, off, data) => i < |c.lent| && off + |data| <= |c.lent[i].bytes|
      case Drop(i) => i < |c.lent| && c.lent[i].refs >= 1
    }

    function After(c: Cache, size: nat): Cache
      requires Enabled(c)
    {
      match this
      case Look(s, io) => Looked(c, s, io, size).0
      case Store(i, off, data) => Stored(c, i, off, data)
      case Drop(i) => Dropped(c, i)
    }

    function Pushed(c: Cache, size: nat): seq<nat>
      requires Enabled(c)
    {
      match this
      case Look(s, io) => PushedByLook(c, s, io, size)
      case Store(_, _, _) => []
      case Drop(i) => PushedByDrop(c, i)
    }
  }

  ghost predicate StepAt(run: seq<Cache>, es: seq<Event>, k: nat, size: nat)
    requires k < |es| && |run| == |es| + 1
  {
    es[k].Enabled(run[k]) && run[k + 1] == es[k].After(run[k], size)
  }

  /** A run from an empty cache in which no change is lost and no old bytes are taken. */
  ghost predicate IsRun(run: seq<Cache>, es: seq<Event>, size: nat) {
    && |run| == |es| + 1 && run[0].lent == [] && run[0].cached == []
    && (forall k: nat :: k < |es| ==> StepAt(run, es, k, size))
    && (forall k: nat :: k < |run| ==> Sound(run[k], size))
  }

  /** The sectors that were put in front, in order. */
  ghost function PushedIn(run: seq<Cache>, es: seq<Event>, k: nat, size: nat): seq<nat>
    requires IsRun(run, es, size) && k <= |es|
  {
    if k == 0 then [] else
    assert StepAt(run, es, k - 1, size);
    PushedIn(run, es, k - 1, size) + es[k - 1].Pushed(run[k - 1], size)
  }

  lemma {:induction false} RunOrder(run: seq<Cache>, es: seq<Event>, k: nat, size: nat)
    requires IsRun(run, es, size) && k <= |es|
    ensures ByRelease(PushedIn(run, es, k, size), run[k].cached)
  {
    hide ByRelease, Sound, Looked, Dropped, PushedByLook, PushedByDrop;
    if k == 0 {
      NothingCached(run[0].cached);
    } else {
      RunOrder(run, es, k - 1, size);
      assert StepAt(run, es, k - 1, size);
      var pushed, c := PushedIn(run, es, k - 1, size), run[k - 1];
      assert Sound(c, size);
      match es[k - 1] {
        case Look(s, io) => LookedOrder(pushed, c, s, io, size);
        case Store(_, _, _) => assert pushed + [] == pushed;
        case Drop(i) => DroppedOrder(pushed, c, i, size);
      }
    }
  }

  lemma NothingCached(cached: seq<Buffer>)
    requires cached == []
    ensures ByRelease([], cached)
  {
  }

  /** In every run in which the cache stays sound the buffer that a lookup recycles is that of the least recently released sector: every other cached
      sector was released after it. */
  lemma {:induction false} LeastRecentlyUsed(run: seq<Cache>, es: seq<Event>, k: nat, size: nat, s: nat, i: nat)
    requires IsRun(run, es, size) && k <= |es| && Recycles(run[k], s) && i < |run[k].cached|
    requires run[k].cached[i] !in Looked(run[k], s, WORKS, size).0.cached
    ensures forall j :: 0 <= j < |run[k].cached| && j != i ==>
              Last(PushedIn(run, es, k, size), run[k].cached[j].sector) > Last(PushedIn(run, es, k, size), run[k].cached[i].sector)
  {
    RunOrder(run, es, k, size);
    hide IsRun, PushedIn, Sound, Last;
    var c, n := run[k], |run[k].cached| - 1;
    assert i < n ==> c.cached[..n][i] == c.cached[i] && c.cached[i] in c.cached[..n];
    RecycledRest(c, s, size);
    assert i == n;
  }

  lemma {:induction false} RecycledRest(c: Cache, s: nat, size: nat)
    requires Recycles(c, s)
    ensures forall b :: b in c.cached[..|c.cached| - 1] ==> b in Looked(c, s, WORKS, size).0.cached
  {
    hide Initialized;
  }

  /** In every run in which the cache stays sound the references to a sector that are out are its successful lookups less its drops. */
  lemma {:induction false} RunCounts(run: seq<Cache>, es: seq<Event>, k: nat, size: nat, t: nat)
    requires IsRun(run, es, size) && k <= |es|
    ensures Refs(run[k].lent, t) == Balance(run, es, k, size, t)
  {
    hide Refs, Sound, Looked, Dropped;
    if k == 0 {
      NotLent(run[0].lent, t);
    } else {
      RunCounts(run, es, k - 1, size, t);
      assert StepAt(run, es, k - 1, size);
      var c := run[k - 1];
      assert Sound(c, size);
      match es[k - 1] {
        case Look(s, io) => LookedCounts(c, s, io, size, t);
        case Store(i, off, data) => StoredCounts(c, i, off, data, size, t);
        case Drop(i) => DroppedCounts(c, i, size, t);
      }
    }
  }

  lemma {:induction false} StoredCounts(c: Cache, i: nat, off: nat, data: seq<byte>, size: nat, t: nat)
    requires Sound(c, size) && i < |c.lent| && off + |data| <= |c.lent[i].bytes|
    ensures Refs(Stored(c, i, off, data).lent, t) == Refs(c.lent, t)
  {
    hide Sound, Refs, DistinctSectors;
    SoundDistinct(c, size);
    RefsOf(c.lent, i);
    RefsChanged(c.lent, i, Stored(c, i, off, data).lent[i], t);
  }

  /** Successful lookups of `t` less its drops. */
  ghost function Balance(run: seq<Cache>, es: seq<Event>, k: nat, size: nat, t: nat): int
    requires IsRun(run, es, size) && k <= |es|
  {
    if k == 0 then 0 else
    assert StepAt(run, es, k - 1, size);
    Balance(run, es, k - 1, size, t) +
    match es[k - 1]
    case Look(s, io) => if s == t && Looked(run[k - 1], s, io, size).1 then 1 else 0
    case Store(_, _, _) => 0
    case Drop(i) => if run[k - 1].lent[i].sector == t then -1 else 0
  }
}
