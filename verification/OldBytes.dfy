/** A run of fs/volume.rs in which a lookup takes old bytes of a sector for its current ones. */
module OldBytes {
  import opened Bytes
  import opened Volume

  const UNREADABLE: Io := Io(false, true, [])

  /** Looks up a sector and drops the reference at once. */
  function Visit(c: Cache, s: nat, io: Io): (c': Cache)
    requires c.lent == []
    ensures c'.lent == []
  {
    LookedOne(c, s, io, 1);
    var r := Looked(c, s, io, 1);
    if r.1 then Dropped(r.0, 0) else r.0
  }

  /** Looks up a sector, writes to it if that worked, and drops the reference. */
  function Change(c: Cache, s: nat, io: Io, data: seq<byte>): (c': Cache)
    requires c.lent == []
    ensures c'.lent == []
  {
    LookedOne(c, s, io, 1);
    var r := Looked(c, s, io, 1);
    if !r.1 then r.0
    else if |data| <= |r.0.lent[0].bytes| then Dropped(Stored(r.0, 0, 0, data), 0)
    else Dropped(r.0, 0)
  }

  /** The working visits of the sectors `lo..hi`, in order. */
  function Visits(c: Cache, lo: nat, hi: nat): (c': Cache)
    requires c.lent == []
    ensures c'.lent == []
  {
    if hi <= lo then c else Visit(Visits(c, lo, hi - 1), hi - 1, WORKS)
  }

  function Fresh(s: nat, disk: Disk): Buffer
    requires s < |disk|
  {
    Buffer(s, Some(s), false, disk[s], 0)
  }

  /** The buffers of the sectors `lo..hi`, the last one first. */
  function Reversed(lo: nat, hi: nat, disk: Disk): (bs: seq<Buffer>)
    requires hi <= |disk|
    ensures |bs| == if hi <= lo then 0 else hi - lo
    ensures forall i :: 0 <= i < |bs| ==> bs[i] == Fresh(hi - 1 - i, disk)
  {
    if hi <= lo then [] else [Fresh(hi - 1, disk)] + Reversed(lo, hi - 1, disk)
  }

  function Front(bs: seq<Buffer>): seq<Buffer> {
    if |bs| <= 8 then bs else bs[..8]
  }

  predicate Absent(bs: seq<Buffer>, s: nat) {
    forall i :: 0 <= i < |bs| ==> bs[i].sector != s
  }

  /** A working visit of an absent sector puts its buffer in front; a ninth buffer takes the place of the
      last, if that has no changes. */
  lemma {:induction false} VisitFresh(c: Cache, s: nat)
    requires c.lent == [] && |c.cached| <= 8 && s < |c.disk| && Absent(c.cached, s)
    requires |c.cached| == 8 ==> !Victim(c).dirty && Victim(c).loaded != Some(s)
    ensures Visit(c, s, WORKS) == Cache(c.disk, [], Front([Fresh(s, c.disk)] + c.cached))
  {
    hide Looked;
    var rest := if |c.cached| == 8 then c.cached[..7] else c.cached;
    FreshLooked(c, s, rest);
    assert [Fresh(s, c.disk)] + rest == Front([Fresh(s, c.disk)] + c.cached);
    DropsOnly(Cache(c.disk, [Fresh(s, c.disk).(refs := 1)], rest), Fresh(s, c.disk));
  }

  lemma {:induction false} FreshLooked(c: Cache, s: nat, rest: seq<Buffer>)
    requires c.lent == [] && |c.cached| <= 8 && s < |c.disk| && Absent(c.cached, s)
    requires |c.cached| == 8 ==> !Victim(c).dirty && Victim(c).loaded != Some(s)
    requires rest == if |c.cached| == 8 then c.cached[..7] else c.cached
    ensures Looked(c, s, WORKS, 1) == (Cache(c.disk, [Fresh(s, c.disk).(refs := 1)], rest), true)
  {
    assert c.lent + [Fresh(s, c.disk).(refs := 1)] == [Fresh(s, c.disk).(refs := 1)];
  }

  lemma DropsOnly(c: Cache, b: Buffer)
    requires c.lent == [b.(refs := 1)] && b.refs == 0
    ensures Dropped(c, 0) == Cache(c.disk, [], [b] + c.cached)
  {
  }

  /** The buffers that `n` more would push out have no changes and do not hold the sectors `lo..hi`. */
  predicate Yield(bs: seq<Buffer>, n: int, lo: nat, hi: nat) {
    forall i :: 0 <= i < |bs| && 8 - n <= i ==> !bs[i].dirty && (bs[i].loaded == None || !(lo <= bs[i].loaded.value < hi))
  }

  lemma {:induction false} VisitsFresh(c: Cache, lo: nat, hi: nat)
    requires c.lent == [] && |c.cached| <= 8 && lo <= hi <= |c.disk| && hi - lo <= 8
    requires forall s :: lo <= s < hi ==> Absent(c.cached, s)
    requires Yield(c.cached, hi - lo, lo, hi)
    ensures Visits(c, lo, hi) == Cache(c.disk, [], Front(Reversed(lo, hi, c.disk) + c.cached))
  {
    hide Visit, Reversed, Front, Absent;
    if lo < hi {
      var n := hi - 1;
      var c1, more := Cache(c.disk, [], Front(Reversed(lo, n, c.disk) + c.cached)), Reversed(lo, n, c.disk);
      VisitsFresh(c, lo, n);
      FrontYields(more, c.cached, lo, hi, c.disk);
      VisitFresh(c1, n);
      FrontStep(more, c.cached, lo, hi, c.disk);
    } else {
      FrontNone(c.cached, lo, hi, c.disk);
    }
  }

  lemma FrontNone(bs: seq<Buffer>, lo: nat, hi: nat, disk: Disk)
    requires hi <= lo && hi <= |disk| && |bs| <= 8
    ensures Front(Reversed(lo, hi, disk) + bs) == bs
  {
    assert Reversed(lo, hi, disk) + bs == bs;
  }

  lemma {:induction false} FrontYields(more: seq<Buffer>, bs: seq<Buffer>, lo: nat, hi: nat, disk: Disk)
    requires lo < hi <= |disk| && hi - lo <= 8 && |bs| <= 8 && more == Reversed(lo, hi - 1, disk)
    requires Absent(bs, hi - 1) && Yield(bs, hi - lo, lo, hi)
    ensures var f := Front(more + bs);
            && |f| <= 8 && Absent(f, hi - 1)
            && (|f| == 8 ==> !f[7].dirty && f[7].loaded != Some(hi - 1))
  {
    var f := Front(more + bs);
    assert forall i :: 0 <= i < |f| ==> f[i] == if i < |more| then Fresh(hi - 2 - i, disk) else bs[i - |more|];
  }

  lemma {:induction false} FrontStep(more: seq<Buffer>, bs: seq<Buffer>, lo: nat, hi: nat, disk: Disk)
    requires lo < hi <= |disk| && more == Reversed(lo, hi - 1, disk)
    ensures Front([Fresh(hi - 1, disk)] + Front(more + bs)) == Front(Reversed(lo, hi, disk) + bs)
  {
    assert Reversed(lo, hi, disk) + bs == [Fresh(hi - 1, disk)] + (more + bs);
  }

  /** A visit that loses no changes and takes no old bytes leaves the cache sound, and every sector showing
      what it showed before. */
  lemma {:induction false} VisitSound(c: Cache, s: nat, io: Io)
    requires c.lent == [] && Sound(c, 1) && !LosesChanges(c, s, io) && !TakesOldBytes(c, s)
    ensures Sound(Visit(c, s, io), 1) && View(Visit(c, s, io)) == View(c)
  {
    hide Sound, View, Looked, Dropped;
    LookedKeepsView(c, s, io, 1);
    LookedOne(c, s, io, 1);
    var r := Looked(c, s, io, 1);
    if r.1 {
      DroppedKeeps(r.0, 0, 1);
    }
  }

  lemma {:induction false} VisitsSound(c: Cache, lo: nat, hi: nat)
    requires c.lent == [] && |c.cached| <= 8 && lo <= hi <= |c.disk| && hi - lo <= 8
    requires forall s :: lo <= s < hi ==> Absent(c.cached, s)
    requires Yield(c.cached, hi - lo, lo, hi) && Sound(c, 1)
    ensures Sound(Visits(c, lo, hi), 1) && View(Visits(c, lo, hi)) == View(c)
  {
    hide Visit, Reversed, Front, Absent, Sound, View;
    if lo < hi {
      var n := hi - 1;
      VisitsSound(c, lo, n);
      VisitsFresh(c, lo, n);
      FrontYields(Reversed(lo, n, c.disk), c.cached, lo, hi, c.disk);
      VisitSound(Visits(c, lo, n), n, WORKS);
    }
  }

  lemma {:induction false} ChangeSound(c: Cache, s: nat, data: byte)
    requires c.lent == [] && Sound(c, 1) && !LosesChanges(c, s, WORKS) && !TakesOldBytes(c, s)
    requires s < |c.disk|
    ensures Sound(Change(c, s, WORKS, [data]), 1)
    ensures s < |View(c)| && View(Change(c, s, WORKS, [data])) == View(c)[s := [data]]
  {
    hide Sound, View, Looked, Dropped;
    LookedKeepsView(c, s, WORKS, 1);
    LookedOne(c, s, WORKS, 1);
    LookedExact(c, s, WORKS, 1);
    CandidateLoads(c, s, 1, WORKS);
    var r := Looked(c, s, WORKS, 1).0;
    LentSize(r);
    StoredChangesView(r, 0, 0, [data], 1);
    assert Splice(r.lent[0].bytes, 0, [data]) == [data];
    DroppedKeeps(Stored(r, 0, 0, [data]), 0, 1);
    ViewLength(c);
    ViewLength(r);
  }

  lemma LentSize(c: Cache)
    requires Sound(c, 1) && c.lent != []
    ensures |c.lent[0].bytes| == 1
  {
    assert c.lent[0] in Buffers(c);
  }

  lemma ViewLength(c: Cache)
    ensures |View(c)| == |c.disk|
  {
  }

  /** Sixteen blank sectors of one byte, and an empty cache. */
  const BLANK: Disk := seq(16, _ => [0])
  const START: Cache := Cache(BLANK, [], [])

  /** The buffer of sector 0 after a lookup of sector 8 renamed it and could not read, and the buffer of
      sector 0 after it was read again and changed. */
  const RENAMED: Buffer := Buffer(8, Some(0), false, [0], 0)
  const CHANGED: Buffer := Buffer(0, Some(0), true, [1], 0)

  ghost const FILLED: Cache := Visits(START, 0, 8)
  ghost const FAILED: Cache := Visit(FILLED, 8, UNREADABLE)

  lemma {:induction false} FilledIs()
    ensures FILLED == Cache(BLANK, [], Reversed(0, 8, BLANK)) && Sound(FILLED, 1) && View(FILLED) == BLANK
  {
    hide Visits;
    assert Sound(START, 1) && View(START) == BLANK by { StartSound(); }
    VisitsFresh(START, 0, 8);
    VisitsSound(START, 0, 8);
    assert Reversed(0, 8, BLANK) + [] == Reversed(0, 8, BLANK);
  }

  lemma {:induction false} StartSound()
    ensures Sound(START, 1) && View(START) == BLANK
  {
    assert forall s, b :: !Holds(Buffers(START), s, b);
  }

  lemma {:induction false} FailedIs()
    ensures FAILED == Cache(BLANK, [], [RENAMED] + Reversed(1, 8, BLANK)) && Sound(FAILED, 1) && View(FAILED) == BLANK
  {
    hide Visits, Sound, View;
    FilledIs();
    VisitSound(FILLED, 8, UNREADABLE);
    assert FILLED.cached[..7] == Reversed(1, 8, BLANK);
    assert Position(FILLED.cached, 8) == 8;
  }

  /** After the failure sector 0 is read into another buffer. */
  lemma {:induction false} FailedLooksUp()
    ensures var r := Looked(FAILED, 0, WORKS, 1);
            r == (Cache(BLANK, [Buffer(0, Some(0), false, [0], 1)], [RENAMED] + Reversed(2, 8, BLANK)), true)
    ensures !LosesChanges(FAILED, 0, WORKS) && !TakesOldBytes(FAILED, 0)
  {
    hide Visits, Visit, Sound, View;
    FailedIs();
    assert Position(FAILED.cached, 0) == 8;
    assert FAILED.cached[..7] == [RENAMED] + Reversed(2, 8, BLANK);
    assert Victim(FAILED) == Fresh(1, BLANK);
    assert FAILED.lent + [Buffer(0, Some(0), false, [0], 1)] == [Buffer(0, Some(0), false, [0], 1)];
  }

  ghost const WRITTEN: Cache := Change(FAILED, 0, WORKS, [1])

  lemma {:induction false} WrittenIs()
    ensures WRITTEN == Cache(BLANK, [], [CHANGED, RENAMED] + Reversed(2, 8, BLANK))
    ensures Sound(WRITTEN, 1) && View(WRITTEN) == BLANK[0 := [1]]
  {
    hide Visits, Visit, Sound, View, Looked;
    FailedIs();
    FailedLooksUp();
    ChangeSound(FAILED, 0, 1);
    assert Splice([0], 0, [1]) == [1];
    assert [CHANGED] + ([RENAMED] + Reversed(2, 8, BLANK)) == [CHANGED, RENAMED] + Reversed(2, 8, BLANK);
  }

  ghost const AGAIN: Cache := Visit(WRITTEN, 8, UNREADABLE)
  ghost const PASSED: Cache := Visits(AGAIN, 9, 15)
  ghost const COMMITTED: Cache := Visit(PASSED, 15, WORKS)

  lemma {:induction false} AgainIs()
    ensures AGAIN == Cache(BLANK, [], [RENAMED, CHANGED] + Reversed(2, 8, BLANK))
    ensures Sound(AGAIN, 1) && View(AGAIN) == BLANK[0 := [1]]
  {
    hide Visits, Visit, Sound, View, Reversed;
    WrittenIs();
    FailsAgain(WRITTEN, Reversed(2, 8, BLANK));
    VisitSound(WRITTEN, 8, UNREADABLE);
  }

  /** The second failure moves the renamed buffer to the front. */
  lemma {:induction false} FailsAgain(c: Cache, rest: seq<Buffer>)
    requires c == Cache(BLANK, [], [CHANGED, RENAMED] + rest)
    ensures !LosesChanges(c, 8, UNREADABLE) && !TakesOldBytes(c, 8)
    ensures Visit(c, 8, UNREADABLE) == Cache(BLANK, [], [RENAMED, CHANGED] + rest)
  {
    hide Outdated;
    assert c.cached[1] == RENAMED && Position(c.cached, 8) == 1;
    assert Without(c.cached, 1) == [CHANGED] + rest;
    assert [RENAMED] + ([CHANGED] + rest) == [RENAMED, CHANGED] + rest;
  }

  lemma {:induction false} PassedIs()
    ensures PASSED == Cache(BLANK, [], Reversed(9, 15, BLANK) + [RENAMED, CHANGED])
    ensures Sound(PASSED, 1) && View(PASSED) == BLANK[0 := [1]]
  {
    hide Visits, Visit, Sound, View;
    AgainIs();
    VisitsFresh(AGAIN, 9, 15);
    VisitsSound(AGAIN, 9, 15);
    assert (Reversed(9, 15, BLANK) + AGAIN.cached)[..8] == Reversed(9, 15, BLANK) + [RENAMED, CHANGED];
  }

  lemma {:induction false} CommittedIs()
    ensures COMMITTED == Cache(BLANK[0 := [1]], [], Reversed(9, 16, BLANK) + [RENAMED])
    ensures Sound(COMMITTED, 1) && View(COMMITTED) == BLANK[0 := [1]]
  {
    hide Visits, Sound, View;
    PassedIs();
    PassedVictim(PASSED);
    VisitSound(PASSED, 15, WORKS);
  }

  /** The visit of sector 15 writes the change back. */
  lemma {:induction false} PassedVictim(c: Cache)
    requires c == Cache(BLANK, [], Reversed(9, 15, BLANK) + [RENAMED, CHANGED])
    ensures !LosesChanges(c, 15, WORKS) && !TakesOldBytes(c, 15)
    ensures Visit(c, 15, WORKS) == Cache(BLANK[0 := [1]], [], Reversed(9, 16, BLANK) + [RENAMED])
  {
    assert Position(c.cached, 15) == 8 && Victim(c) == CHANGED;
    assert [Fresh(15, BLANK)] + c.cached[..7] == Reversed(9, 16, BLANK) + [RENAMED];
  }

  /** After one unreadable sector and nothing but successful write-backs, a reader of sector 0 gets the byte
      it had before it was changed, although the changed one is on the disk. */
  lemma {:induction false} OldByteRead()
    ensures Sound(COMMITTED, 1) && View(COMMITTED) == COMMITTED.disk == BLANK[0 := [1]]
    ensures TakesOldBytes(COMMITTED, 0)
    ensures var r := Looked(COMMITTED, 0, WORKS, 1);
            r.1 && r.0.lent == [Buffer(0, Some(0), false, [0], 1)] && !Sound(r.0, 1)
  {
    hide Visits, Visit, Sound, View;
    CommittedIs();
    assert Position(COMMITTED.cached, 0) == 8 && Victim(COMMITTED) == RENAMED;
    LookedKeepsView(COMMITTED, 0, WORKS, 1);
  }

  // ---- a torn read ----

  /** A read that fails after the device has written to the buffer. */
  const TEARS: Io := Io(false, true, [5])
  const TORN: Buffer := Buffer(8, Some(0), false, [5], 0)

  ghost const RIPPED: Cache := Visit(FILLED, 8, TEARS)
  ghost const FILLED_AGAIN: Cache := Visits(RIPPED, 9, 16)

  lemma {:induction false} RippedIs()
    ensures RIPPED == Cache(BLANK, [], [TORN] + Reversed(1, 8, BLANK)) && Sound(RIPPED, 1) && View(RIPPED) == BLANK
  {
    hide Visits, Sound, View;
    FilledIs();
    VisitSound(FILLED, 8, TEARS);
    assert FILLED.cached[..7] == Reversed(1, 8, BLANK);
    assert Position(FILLED.cached, 8) == 8;
  }

  lemma {:induction false} FilledAgainIs()
    ensures FILLED_AGAIN == Cache(BLANK, [], Reversed(9, 16, BLANK) + [TORN])
    ensures Sound(FILLED_AGAIN, 1) && View(FILLED_AGAIN) == BLANK
  {
    hide Visits, Visit, Sound, View;
    RippedIs();
    VisitsFresh(RIPPED, 9, 16);
    VisitsSound(RIPPED, 9, 16);
    assert (Reversed(9, 16, BLANK) + RIPPED.cached)[..8] == Reversed(9, 16, BLANK) + [TORN];
  }

  /** After one failed read, and without any write, a reader of sector 0 gets a byte that it never had. */
  lemma {:induction false} TornByteRead()
    ensures Sound(FILLED_AGAIN, 1) && View(FILLED_AGAIN) == FILLED_AGAIN.disk == BLANK
    ensures TakesOldBytes(FILLED_AGAIN, 0)
    ensures var r := Looked(FILLED_AGAIN, 0, WORKS, 1);
            r.1 && r.0.lent == [Buffer(0, Some(0), false, [5], 1)] && !Sound(r.0, 1)
  {
    hide Visits, Visit, Sound, View;
    FilledAgainIs();
    assert Position(FILLED_AGAIN.cached, 0) == 8 && Victim(FILLED_AGAIN) == TORN;
    LookedKeepsView(FILLED_AGAIN, 0, WORKS, 1);
  }
}
