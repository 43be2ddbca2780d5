/** The write-back sector cache of fs/volume.rs. */
module Volume {
  import opened Bytes

  const EXPECTED_CACHE_SIZE: nat := 8

  /** `sector` is the sector the buffer stands for, `loaded` the one its bytes came from, `refs` the
      number of live `BufferedSectorRef`s to it. */
  datatype Buffer = Buffer(sector: nat, loaded: Option<nat>, dirty: bool, bytes: seq<byte>, refs: nat)

  /** Whether the transfers a call may perform succeed, and what a read that fails leaves in the buffer. */
  datatype Io = Io(readOk: bool, writeOk: bool, torn: seq<byte>)

  const WORKS: Io := Io(true, true, [])

  datatype VolumeError = IoError(sector: nat)

  type Disk = seq<seq<byte>>

  ghost predicate DiskOk(disk: Disk, size: nat) {
    forall s :: 0 <= s < |disk| ==> |disk[s]| == size
  }

  /** A dirty buffer holds its own sector, and a clean one that holds its own sector agrees with the
      disk. A buffer that still holds another sector is read again before it is used. */
  ghost predicate BufferOk(b: Buffer, disk: Disk, size: nat) {
    && |b.bytes| == size
    && (b.dirty ==> b.loaded == Some(b.sector))
    && (b.loaded == Some(b.sector) ==> b.sector < |disk|)
    && (b.loaded == Some(b.sector) && !b.dirty ==> b.bytes == disk[b.sector])
  }

  /** Every sector has at most one buffer, and every buffer is sound. */
  ghost predicate Coherent(disk: Disk, m: multiset<Buffer>, size: nat) {
    && DiskOk(disk, size)
    && (forall b :: b in m ==> m[b] == 1 && BufferOk(b, disk, size))
    && (forall b, c :: b in m && c in m && b.sector == c.sector ==> b == c)
  }

  ghost predicate Holds(m: multiset<Buffer>, s: nat, b: Buffer) {
    b in m && b.sector == s && b.loaded == Some(s)
  }

  /** What the file system sees in sector `s`: the resident buffer if it holds that sector, else the disk. */
  ghost function ViewAt(disk: Disk, m: multiset<Buffer>, s: nat): seq<byte>
    requires s < |disk|
  {
    if exists b :: Holds(m, s, b) then (var b :| Holds(m, s, b); b.bytes) else disk[s]
  }

  ghost function ViewOf(disk: Disk, m: multiset<Buffer>): (v: Disk)
    ensures |v| == |disk|
    ensures forall s :: 0 <= s < |disk| ==> v[s] == ViewAt(disk, m, s)
  {
    seq(|disk|, s requires 0 <= s < |disk| => ViewAt(disk, m, s))
  }

  /** BufferedSectorData::commit. */
  function Committed(b: Buffer, disk: Disk, io: Io): (r: (Buffer, Disk, bool))
    ensures |r.1| == |disk|
  {
    if !b.dirty then (b, disk, true)
    else if !io.writeOk || b.loaded == None || b.loaded.value >= |disk| then (b, disk, false)
    else (b.(dirty := false), disk[b.loaded.value := b.bytes], true)
  }

  /** A failed read may have written to the buffer. */
  function Torn(b: Buffer, io: Io): Buffer {
    if |io.torn| == |b.bytes| then b.(bytes := io.torn) else b
  }

  /** BufferedSectorData::initialize; reading beyond the end of the volume fails without a transfer. */
  function Initialized(b: Buffer, disk: Disk, io: Io): (r: (Buffer, Disk, bool))
    ensures |r.1| == |disk| && r.0.sector == b.sector && r.0.refs == b.refs
    ensures r.2 ==> r.0.loaded == Some(b.sector)
    ensures !r.2 ==> r.0.loaded == b.loaded && |r.0.bytes| == |b.bytes|
  {
    var (b1, disk1, ok) := Committed(b, disk, io);
    if !ok then (b1, disk1, false)
    else if b1.loaded == Some(b1.sector) then (b1, disk1, true)
    else if b1.sector >= |disk1| then (b1, disk1, false)
    else if !io.readOk then (Torn(b1, io), disk1, false)
    else (b1.(loaded := Some(b1.sector), bytes := disk1[b1.sector]), disk1, true)
  }

  /** `m'` is `m` with the buffer `v` replaced by `r`. */
  ghost predicate Replaces(m: multiset<Buffer>, m': multiset<Buffer>, v: Buffer, r: Buffer) {
    && v in m
    && (forall c :: c in m' <==> c == r || (c in m && c != v))
    && (forall c :: c in m' ==> m'[c] == 1)
  }

  lemma {:induction false} ReplaceOne(m: multiset<Buffer>, v: Buffer, r: Buffer)
    requires (forall b :: b in m ==> m[b] == 1) && v in m
    requires r in m ==> r == v
    ensures Replaces(m, m - multiset{v} + multiset{r}, v, r)
  {
  }

  ghost predicate Free(m: multiset<Buffer>, s: nat) {
    forall b :: b in m ==> b.sector != s
  }

  /** Renamed to `s`, does `v` look loaded although the disk has other bytes by now? */
  predicate Outdated(v: Buffer, disk: Disk, s: nat) {
    v.sector != s && v.loaded == Some(s) && (s < |disk| ==> v.bytes != disk[s])
  }

  /** Initializing a buffer taken for sector `s`, its own or a renamed one, shows the same bytes. */
  lemma {:induction false} InitializeViewAt(disk: Disk, m: multiset<Buffer>, m': multiset<Buffer>, v: Buffer,
      b: Buffer, io: Io, size: nat, t: nat)
    requires Coherent(disk, m, size) && t < |disk|
    requires b == v.(sector := b.sector, refs := b.refs) && (b.sector == v.sector || Free(m, b.sector))
    requires v in m && Initialized(b, disk, io).2 && !Outdated(v, disk, b.sector)
    requires Replaces(m, m', v, Initialized(b, disk, io).0)
    ensures ViewAt(Initialized(b, disk, io).1, m', t) == ViewAt(disk, m, t)
  {
    var r := Initialized(b, disk, io);
    if c :| Holds(m, t, c) {
      if c == v {
        assert t == b.sector ==> Holds(m', t, r.0);
      } else {
        assert Holds(m', t, c);
      }
    } else if t == b.sector {
      assert !Holds(m, t, v);
      assert Holds(m', t, r.0);
    } else {
      assert !Holds(m, t, v);
      assert forall c :: Holds(m', t, c) ==> Holds(m, t, c);
    }
  }

  lemma {:induction false} InitializeView(disk: Disk, m: multiset<Buffer>, m': multiset<Buffer>, v: Buffer,
      b: Buffer, io: Io, size: nat)
    requires Coherent(disk, m, size)
    requires b == v.(sector := b.sector, refs := b.refs) && (b.sector == v.sector || Free(m, b.sector))
    requires v in m && Initialized(b, disk, io).2 && !Outdated(v, disk, b.sector)
    requires Replaces(m, m', v, Initialized(b, disk, io).0)
    ensures ViewOf(Initialized(b, disk, io).1, m') == ViewOf(disk, m)
  {
    forall t | 0 <= t < |disk|
      ensures ViewAt(Initialized(b, disk, io).1, m', t) == ViewAt(disk, m, t)
    {
      InitializeViewAt(disk, m, m', v, b, io, size, t);
    }
  }

  lemma {:induction false} InitializeCoherent(disk: Disk, m: multiset<Buffer>, m': multiset<Buffer>, v: Buffer,
      b: Buffer, io: Io, size: nat)
    requires Coherent(disk, m, size)
    requires b == v.(sector := b.sector, refs := b.refs) && (b.sector == v.sector || Free(m, b.sector))
    requires v in m && Initialized(b, disk, io).2 && !Outdated(v, disk, b.sector)
    requires Replaces(m, m', v, Initialized(b, disk, io).0)
    ensures Coherent(Initialized(b, disk, io).1, m', size)
  {
  }

  /** Initializing a buffer taken for its own or another, unbuffered sector leaves the cache coherent,
      and every sector showing the same bytes, exactly when it did not take old bytes of that sector for
      new ones. */
  lemma {:induction false} InitializeKeeps(disk: Disk, m: multiset<Buffer>, v: Buffer, b: Buffer, io: Io, size: nat)
    requires Coherent(disk, m, size) && v in m
    requires b == v.(sector := b.sector, refs := b.refs) && (b.sector == v.sector || Free(m, b.sector))
    requires Initialized(b, disk, io).2
    ensures var t := Initialized(b, disk, io);
            var m' := m - multiset{v} + multiset{t.0};
            && (Coherent(t.1, m', size) <==> !Outdated(v, disk, b.sector))
            && (Coherent(t.1, m', size) ==> ViewOf(t.1, m') == ViewOf(disk, m))
  {
    var t := Initialized(b, disk, io);
    var m' := m - multiset{v} + multiset{t.0};
    if Outdated(v, disk, b.sector) {
      assert t.0 == b && t.1 == disk && b in m';
      assert !BufferOk(b, disk, size);
    } else {
      ReplaceOne(m, v, t.0);
      InitializeCoherent(disk, m, m', v, b, io, size);
      InitializeView(disk, m, m', v, b, io, size);
    }
  }

  /** `m'` is `m` with the buffer `r` for a sector without one. */
  ghost predicate Adds(m: multiset<Buffer>, m': multiset<Buffer>, r: Buffer) {
    && Free(m, r.sector)
    && (forall c :: c in m' <==> c == r || c in m)
    && (forall c :: c in m' ==> m'[c] == 1)
  }

  lemma {:induction false} AddedViewAt(disk: Disk, m: multiset<Buffer>, m': multiset<Buffer>, r: Buffer, size: nat,
      t: nat)
    requires Coherent(disk, m, size) && Adds(m, m', r) && t < |disk|
    requires r.loaded == Some(r.sector) ==> r.sector < |disk| && r.bytes == disk[r.sector]
    ensures ViewAt(disk, m', t) == ViewAt(disk, m, t)
  {
    if c :| Holds(m, t, c) {
      assert Holds(m', t, c);
      assert forall d :: Holds(m', t, d) <==> Holds(m, t, d);
    } else if t == r.sector && r.loaded == Some(t) {
      assert Holds(m', t, r);
      assert forall d :: Holds(m', t, d) ==> d == r;
    } else {
      assert forall d :: Holds(m', t, d) ==> Holds(m, t, d);
    }
  }

  /** A failed initialization leaves the cache coherent, and every sector showing the same bytes, exactly
      when it did not fail to write back a renamed buffer. */
  lemma {:induction false} FailedKeeps(disk: Disk, m: multiset<Buffer>, v: Buffer, b: Buffer, io: Io, size: nat)
    requires Coherent(disk, m, size) && v in m
    requires b == v.(sector := b.sector) && (b.sector == v.sector || Free(m, b.sector))
    requires !Initialized(b, disk, io).2
    ensures var t := Initialized(b, disk, io);
            var m' := m - multiset{v} + multiset{t.0};
            && (Coherent(t.1, m', size) <==> (b.sector == v.sector || !v.dirty || io.writeOk))
            && (Coherent(t.1, m', size) ==> ViewOf(t.1, m') == ViewOf(disk, m))
  {
    var t := Initialized(b, disk, io);
    var m' := m - multiset{v} + multiset{t.0};
    if b.sector == v.sector || !v.dirty || io.writeOk {
      ReplaceOne(m, v, t.0);
      FailedCoherent(disk, m, m', v, b, io, size);
      forall s | 0 <= s < |disk| ensures ViewAt(t.1, m', s) == ViewAt(disk, m, s) {
        FailedViewAt(disk, m, m', v, b, io, size, s);
      }
    } else {
      assert t.0 == b && t.1 == disk && b in m';
      assert !BufferOk(b, disk, size);
    }
  }

  lemma {:induction false} FailedCoherent(disk: Disk, m: multiset<Buffer>, m': multiset<Buffer>, v: Buffer,
      b: Buffer, io: Io, size: nat)
    requires Coherent(disk, m, size) && v in m
    requires b == v.(sector := b.sector) && (b.sector == v.sector || Free(m, b.sector))
    requires !Initialized(b, disk, io).2 && (b.sector == v.sector || !v.dirty || io.writeOk)
    requires Replaces(m, m', v, Initialized(b, disk, io).0)
    ensures Coherent(Initialized(b, disk, io).1, m', size)
  {
  }

  lemma {:induction false} FailedViewAt(disk: Disk, m: multiset<Buffer>, m': multiset<Buffer>, v: Buffer,
      b: Buffer, io: Io, size: nat, t: nat)
    requires Coherent(disk, m, size) && v in m && t < |disk|
    requires b == v.(sector := b.sector) && (b.sector == v.sector || Free(m, b.sector))
    requires !Initialized(b, disk, io).2 && (b.sector == v.sector || !v.dirty || io.writeOk)
    requires Replaces(m, m', v, Initialized(b, disk, io).0)
    ensures ViewAt(Initialized(b, disk, io).1, m', t) == ViewAt(disk, m, t)
  {
    var r := Initialized(b, disk, io);
    assert Holds(m', t, r.0) ==> b.sector == v.sector && r.0 == v && r.1 == disk;
    if c :| Holds(m, t, c) {
      if c == v {
        assert b.sector == v.sector ==> r.0 == v && Holds(m', t, v);
        assert b.sector != v.sector ==> forall d :: !Holds(m', t, d);
      } else {
        assert Holds(m', t, c);
      }
    } else {
      assert !Holds(m, t, v);
      assert forall c :: Holds(m', t, c) ==> Holds(m, t, c);
    }
  }

  /** A buffer shows the same bytes under another reference count. */
  lemma {:induction false} RecountedViewAt(disk: Disk, m: multiset<Buffer>, m': multiset<Buffer>, v: Buffer,
      b: Buffer, size: nat, t: nat)
    requires Coherent(disk, m, size) && t < |disk|
    requires b == v.(refs := b.refs) && Replaces(m, m', v, b)
    ensures ViewAt(disk, m', t) == ViewAt(disk, m, t)
  {
    if c :| Holds(m, t, c) {
      var d := if c == v then b else c;
      assert Holds(m', t, d);
      assert forall e :: Holds(m', t, e) ==> e == d;
    } else {
      assert !Holds(m, t, v);
      assert forall c :: Holds(m', t, c) ==> Holds(m, t, c);
    }
  }

  function Position(bs: seq<Buffer>, s: nat): (k: nat)
    ensures k <= |bs|
    ensures k < |bs| ==> bs[k].sector == s
    ensures k == |bs| ==> forall b :: b in bs ==> b.sector != s
  {
    if bs == [] || bs[0].sector == s then 0 else Position(bs[1..], s) + 1
  }

  lemma {:induction false} SwapRemove(bs: seq<Buffer>, i: nat)
    requires i < |bs|
    ensures multiset(bs[i := bs[|bs| - 1]][..|bs| - 1]) == multiset(bs) - multiset{bs[i]}
  {
    var last, n := bs[|bs| - 1], |bs| - 1;
    var t := bs[i := last];
    assert bs == bs[..n] + [last];
    if i < n {
      assert t[..n] == bs[..n][i := last];
      assert multiset(t[..n]) == multiset(bs[..n]) - multiset{bs[i]} + multiset{last};
      assert bs[..n][i] == bs[i];
    } else {
      assert t[..n] == bs[..n];
    }
  }

  function Without(bs: seq<Buffer>, k: nat): seq<Buffer>
    requires k < |bs|
  {
    bs[..k] + bs[k + 1..]
  }

  lemma {:induction false} WithoutRemoves(bs: seq<Buffer>, k: nat)
    requires k < |bs|
    ensures multiset(Without(bs, k)) == multiset(bs) - multiset{bs[k]}
  {
    assert bs == bs[..k] + [bs[k]] + bs[k + 1..];
    assert multiset(bs) == multiset(bs[..k]) + multiset{bs[k]} + multiset(bs[k + 1..]);
  }

  /** The volume with its lent and cached buffers, cached ones in order of use. */
  datatype Cache = Cache(disk: Disk, lent: seq<Buffer>, cached: seq<Buffer>)

  ghost function Buffers(c: Cache): multiset<Buffer> {
    multiset(c.lent) + multiset(c.cached)
  }

  ghost function View(c: Cache): Disk {
    ViewOf(c.disk, Buffers(c))
  }

  ghost predicate Referenced(lent: seq<Buffer>) {
    forall b :: b in lent ==> b.refs >= 1 && b.loaded == Some(b.sector)
  }

  ghost predicate Unreferenced(cached: seq<Buffer>) {
    forall b :: b in cached ==> b.refs == 0
  }

  /** Lent buffers are referenced and hold their sector, cached ones are referenced by nobody. */
  ghost predicate Sound(c: Cache, size: nat) {
    Coherent(c.disk, Buffers(c), size) && Referenced(c.lent) && Unreferenced(c.cached)
  }

  /** Lookup of a lent sector. */
  function Borrowed(c: Cache, i: nat, io: Io): (Cache, bool)
    requires i < |c.lent|
  {
    var t := Initialized(c.lent[i].(refs := c.lent[i].refs + 1), c.disk, io);
    if t.2 then (Cache(t.1, c.lent[i := t.0], c.cached), true)
    else (Cache(t.1, c.lent[i := t.0.(refs := c.lent[i].refs)], c.cached), false)
  }

  /** Lookup of an unlent sector with the buffer `b`, leaving `rest` cached. */
  function Taken(c: Cache, b: Buffer, rest: seq<Buffer>, io: Io): (Cache, bool)
  {
    var t := Initialized(b.(refs := 1), c.disk, io);
    if t.2 then (Cache(t.1, c.lent + [t.0], rest), true)
    else (Cache(t.1, c.lent, [t.0.(refs := 0)] + rest), false)
  }

  lemma {:induction false} BorrowedKeeps(c: Cache, i: nat, io: Io, size: nat)
    requires Sound(c, size) && i < |c.lent|
    ensures Sound(Borrowed(c, i, io).0, size)
    ensures View(Borrowed(c, i, io).0) == View(c)
  {
    hide Coherent, ViewOf, ViewAt, Initialized;
    var v := c.lent[i];
    var b := v.(refs := v.refs + 1);
    var t := Initialized(b, c.disk, io);
    if t.2 {
      var c' := Borrowed(c, i, io).0;
      assert v in Buffers(c);
      InitializeKeeps(c.disk, Buffers(c), v, b, io, size);
      assert Buffers(c') == Buffers(c) - multiset{v} + multiset{t.0};
      assert Referenced(c'.lent) by {
        assert t.0.refs >= 1 && t.0.loaded == Some(t.0.sector);
      }
    } else {
      FailedBorrowed(c, i, io, size);
    }
  }

  /** A lent buffer only fails to be written back, and then nothing changes. */
  lemma {:induction false} FailedBorrowed(c: Cache, i: nat, io: Io, size: nat)
    requires Sound(c, size) && i < |c.lent| && !Borrowed(c, i, io).1
    ensures Borrowed(c, i, io).0 == c
  {
    hide ViewOf, ViewAt;
    assert c.lent[i] in Buffers(c) && c.lent[i] in c.lent;
  }

  /** Lookup with a buffer of the cache, its own or a renamed one. */
  lemma {:induction false} TakenKeeps(c: Cache, v: Buffer, b: Buffer, rest: seq<Buffer>, io: Io, size: nat)
    requires Sound(c, size) && multiset(c.cached) == multiset(rest) + multiset{v}
    requires b == v.(sector := b.sector) && (b.sector == v.sector || Free(Buffers(c), b.sector))
    requires Taken(c, b, rest, io).1
    ensures var r := Taken(c, b, rest, io);
            && (Sound(r.0, size) <==> !Outdated(v, c.disk, b.sector))
            && (Sound(r.0, size) ==> View(r.0) == View(c))
  {
    hide Coherent, ViewOf, ViewAt, Initialized, Outdated;
    var r := Taken(c, b, rest, io);
    assert v in Buffers(c);
    var b1 := b.(refs := 1);
    var t := Initialized(b1, c.disk, io);
    InitializeKeeps(c.disk, Buffers(c), v, b1, io, size);
    assert Buffers(r.0) == Buffers(c) - multiset{v} + multiset{t.0};
    SubsetKeeps(c.cached, rest);
    assert Referenced(r.0.lent) by {
      assert t.0.refs >= 1 && t.0.loaded == Some(t.0.sector);
    }
  }

  lemma {:induction false} FailedTakenKeeps(c: Cache, v: Buffer, b: Buffer, rest: seq<Buffer>, io: Io, size: nat)
    requires Sound(c, size) && multiset(c.cached) == multiset(rest) + multiset{v}
    requires b == v.(sector := b.sector) && (b.sector == v.sector || Free(Buffers(c), b.sector))
    requires !Taken(c, b, rest, io).1
    ensures var r := Taken(c, b, rest, io);
            && (Sound(r.0, size) <==> b.sector == v.sector || !v.dirty || io.writeOk)
            && (Sound(r.0, size) ==> View(r.0) == View(c))
  {
    hide Coherent, ViewOf, ViewAt, Initialized;
    var r := Taken(c, b, rest, io);
    assert v in Buffers(c);
    assert v.refs == 0 by { assert v in c.cached; }
    var t := Initialized(b, c.disk, io);
    InitializedRecounted(b, c.disk, io);
    FailedKeeps(c.disk, Buffers(c), v, b, io, size);
    assert r.0 == Cache(t.1, c.lent, [t.0] + rest);
    assert Buffers(r.0) == Buffers(c) - multiset{v} + multiset{t.0};
    SubsetKeeps(c.cached, rest);
    assert Unreferenced(r.0.cached);
  }

  lemma {:induction false} InitializedRecounted(b: Buffer, disk: Disk, io: Io)
    ensures var t := Initialized(b, disk, io); Initialized(b.(refs := 1), disk, io) == (t.0.(refs := 1), t.1, t.2)
  {
  }

  lemma {:induction false} SubsetKeeps(cached: seq<Buffer>, rest: seq<Buffer>)
    requires multiset(rest) <= multiset(cached) && Unreferenced(cached)
    ensures Unreferenced(rest)
  {
    forall b | b in rest ensures b.refs == 0 {
      assert b in multiset(rest);
    }
  }

  /** Lookup with a new buffer. */
  lemma {:induction false} LoadedKeeps(c: Cache, b: Buffer, io: Io, size: nat)
    requires Sound(c, size) && Free(Buffers(c), b.sector)
    requires !b.dirty && b.loaded == None && |b.bytes| == size && b.refs == 0
    ensures Sound(Taken(c, b, c.cached, io).0, size) && View(Taken(c, b, c.cached, io).0) == View(c)
  {
    hide Coherent, ViewOf, ViewAt;
    var r := Taken(c, b, c.cached, io);
    var t := Initialized(b.(refs := 1), c.disk, io);
    if t.2 {
      AddedKeeps(c.disk, Buffers(c), t.0, size);
      assert Buffers(r.0) == Buffers(c) + multiset{t.0};
      assert t.0.refs >= 1 && t.0.loaded == Some(t.0.sector);
      assert Referenced(r.0.lent);
    } else {
      var b1 := t.0.(refs := 0);
      assert r.0 == Cache(c.disk, c.lent, [b1] + c.cached);
      AddedKeeps(c.disk, Buffers(c), b1, size);
      assert Buffers(r.0) == Buffers(c) + multiset{b1};
      assert Unreferenced(r.0.cached);
    }
  }

  lemma {:induction false} AddedKeeps(disk: Disk, m: multiset<Buffer>, r: Buffer, size: nat)
    requires Coherent(disk, m, size) && Free(m, r.sector) && !r.dirty
    requires (r.loaded == None && |r.bytes| == size)
          || (r.sector < |disk| && r.loaded == Some(r.sector) && r.bytes == disk[r.sector])
    ensures Coherent(disk, m + multiset{r}, size)
    ensures ViewOf(disk, m + multiset{r}) == ViewOf(disk, m)
  {
    assert Adds(m, m + multiset{r}, r);
    forall s | 0 <= s < |disk| ensures ViewAt(disk, m + multiset{r}, s) == ViewAt(disk, m, s) {
      AddedViewAt(disk, m, m + multiset{r}, r, size, s);
    }
  }

  /** Drop of a reference to the lent buffer `i`; the last one moves it to the front of the cache. */
  function Dropped(c: Cache, i: nat): Cache
    requires i < |c.lent| && c.lent[i].refs >= 1
  {
    var b := c.lent[i].(refs := c.lent[i].refs - 1);
    if b.refs > 0 then c.(lent := c.lent[i := b])
    else c.(lent := c.lent[i := c.lent[|c.lent| - 1]][..|c.lent| - 1], cached := [b] + c.cached)
  }

  lemma {:induction false} DroppedKeeps(c: Cache, i: nat, size: nat)
    requires Sound(c, size) && i < |c.lent| && c.lent[i].refs >= 1
    ensures Sound(Dropped(c, i), size) && View(Dropped(c, i)) == View(c)
  {
    hide Coherent, ViewOf, Buffers, Dropped, Referenced, Unreferenced;
    var v := c.lent[i];
    LentInBuffers(c, i);
    RecountKeeps(c.disk, Buffers(c), v, v.(refs := v.refs - 1), size);
    DroppedBuffers(c, i);
    DroppedReferences(c, i);
  }

  lemma LentInBuffers(c: Cache, i: nat)
    requires i < |c.lent|
    ensures c.lent[i] in Buffers(c)
  {
    assert c.lent[i] in c.lent;
  }

  lemma {:induction false} DroppedReferences(c: Cache, i: nat)
    requires i < |c.lent| && c.lent[i].refs >= 1 && Referenced(c.lent) && Unreferenced(c.cached)
    ensures Referenced(Dropped(c, i).lent) && Unreferenced(Dropped(c, i).cached) && Dropped(c, i).disk == c.disk
  {
    if c.lent[i].refs == 1 {
      SwapRemoveReferenced(c.lent, i);
    }
  }

  lemma {:induction false} DroppedBuffers(c: Cache, i: nat)
    requires i < |c.lent| && c.lent[i].refs >= 1
    ensures Buffers(Dropped(c, i)) == Buffers(c) - multiset{c.lent[i]} + multiset{c.lent[i].(refs := c.lent[i].refs - 1)}
  {
    if c.lent[i].refs == 1 {
      DroppedLast(c, i);
    } else {
      DroppedOne(c, i);
    }
  }

  lemma {:induction false} DroppedLast(c: Cache, i: nat)
    requires i < |c.lent| && c.lent[i].refs == 1
    ensures Buffers(Dropped(c, i)) == Buffers(c) - multiset{c.lent[i]} + multiset{c.lent[i].(refs := 0)}
  {
    var v, b := c.lent[i], c.lent[i].(refs := 0);
    SwapRemove(c.lent, i);
    assert multiset([b] + c.cached) == multiset{b} + multiset(c.cached);
    assert v in multiset(c.lent);
    MoveOne(multiset(c.lent), multiset(c.cached), v, b);
  }

  lemma {:induction false} DroppedOne(c: Cache, i: nat)
    requires i < |c.lent| && c.lent[i].refs > 1
    ensures Buffers(Dropped(c, i)) == Buffers(c) - multiset{c.lent[i]} + multiset{c.lent[i].(refs := c.lent[i].refs - 1)}
  {
    var v, b := c.lent[i], c.lent[i].(refs := c.lent[i].refs - 1);
    assert multiset(c.lent[i := b]) == multiset(c.lent) - multiset{v} + multiset{b};
    assert v in multiset(c.lent);
    ChangeOne(multiset(c.lent), multiset(c.cached), v, b);
  }

  lemma MoveOne(m1: multiset<Buffer>, m2: multiset<Buffer>, v: Buffer, b: Buffer)
    requires v in m1
    ensures (m1 - multiset{v}) + (multiset{b} + m2) == m1 + m2 - multiset{v} + multiset{b}
  {
  }

  lemma ChangeOne(m1: multiset<Buffer>, m2: multiset<Buffer>, v: Buffer, b: Buffer)
    requires v in m1
    ensures (m1 - multiset{v} + multiset{b}) + m2 == m1 + m2 - multiset{v} + multiset{b}
  {
  }

  lemma {:induction false} SwapRemoveReferenced(lent: seq<Buffer>, i: nat)
    requires Referenced(lent) && i < |lent|
    ensures Referenced(lent[i := lent[|lent| - 1]][..|lent| - 1])
  {
    assert forall d :: d in lent[i := lent[|lent| - 1]][..|lent| - 1] ==> d in lent;
  }

  lemma {:induction false} RecountKeeps(disk: Disk, m: multiset<Buffer>, v: Buffer, b: Buffer, size: nat)
    requires Coherent(disk, m, size) && v in m && b == v.(refs := b.refs)
    ensures Coherent(disk, m - multiset{v} + multiset{b}, size)
    ensures ViewOf(disk, m - multiset{v} + multiset{b}) == ViewOf(disk, m)
  {
    var m' := m - multiset{v} + multiset{b};
    ReplaceOne(m, v, b);
    forall s | 0 <= s < |disk| ensures ViewAt(disk, m', s) == ViewAt(disk, m, s) {
      RecountedViewAt(disk, m, m', v, b, size, s);
    }
  }

  /** A write through a reference to the lent buffer `i`, marked dirty. */
  function Stored(c: Cache, i: nat, off: nat, data: seq<byte>): Cache
    requires i < |c.lent| && off + |data| <= |c.lent[i].bytes|
  {
    c.(lent := c.lent[i := c.lent[i].(dirty := true, bytes := Splice(c.lent[i].bytes, off, data))])
  }

  /** It changes what its own sector shows, and nothing else. */
  lemma {:induction false} StoredChangesView(c: Cache, i: nat, off: nat, data: seq<byte>, size: nat)
    requires Sound(c, size) && i < |c.lent| && off + |data| <= |c.lent[i].bytes|
    ensures Sound(Stored(c, i, off, data), size)
    ensures var s := c.lent[i].sector;
            s < |c.disk| && View(c)[s] == c.lent[i].bytes
            && View(Stored(c, i, off, data)) == View(c)[s := Splice(c.lent[i].bytes, off, data)]
  {
    hide Coherent, ViewOf, ViewAt;
    var v, c' := c.lent[i], Stored(c, i, off, data);
    var b := v.(dirty := true, bytes := Splice(v.bytes, off, data));
    assert v in Buffers(c) && v in c.lent;
    RewriteKeeps(c.disk, Buffers(c), v, b, size);
    assert Buffers(c') == Buffers(c) - multiset{v} + multiset{b};
    assert Referenced(c'.lent);
  }

  lemma {:induction false} RewriteKeeps(disk: Disk, m: multiset<Buffer>, v: Buffer, b: Buffer, size: nat)
    requires Coherent(disk, m, size) && v in m && v.loaded == Some(v.sector)
    requires b == v.(dirty := true, bytes := b.bytes) && |b.bytes| == |v.bytes|
    ensures Coherent(disk, m - multiset{v} + multiset{b}, size)
    ensures v.sector < |disk| && ViewOf(disk, m)[v.sector] == v.bytes
    ensures ViewOf(disk, m - multiset{v} + multiset{b}) == ViewOf(disk, m)[v.sector := b.bytes]
  {
    hide Coherent, ViewAt;
    var m' := m - multiset{v} + multiset{b};
    RewriteReplaces(disk, m, v, b, size);
    RewriteCoherent(disk, m, m', v, b, size);
    forall s | 0 <= s < |disk|
      ensures ViewAt(disk, m', s) == if s == v.sector then b.bytes else ViewAt(disk, m, s)
      ensures s == v.sector ==> ViewAt(disk, m, s) == v.bytes
    {
      RewriteViewAt(disk, m, m', v, b, size, s);
    }
  }

  lemma {:induction false} RewriteReplaces(disk: Disk, m: multiset<Buffer>, v: Buffer, b: Buffer, size: nat)
    requires Coherent(disk, m, size) && v in m && b.sector == v.sector && v.loaded == Some(v.sector)
    ensures Replaces(m, m - multiset{v} + multiset{b}, v, b) && v.sector < |disk|
  {
    ReplaceOne(m, v, b);
  }

  lemma {:induction false} RewriteCoherent(disk: Disk, m: multiset<Buffer>, m': multiset<Buffer>, v: Buffer,
      b: Buffer, size: nat)
    requires Coherent(disk, m, size) && Replaces(m, m', v, b) && v.loaded == Some(v.sector)
    requires b == v.(dirty := true, bytes := b.bytes) && |b.bytes| == |v.bytes|
    ensures Coherent(disk, m', size)
  {
  }

  lemma {:induction false} RewriteViewAt(disk: Disk, m: multiset<Buffer>, m': multiset<Buffer>, v: Buffer,
      b: Buffer, size: nat, t: nat)
    requires Coherent(disk, m, size) && Replaces(m, m', v, b) && v.loaded == Some(v.sector) && t < |disk|
    requires b == v.(dirty := true, bytes := b.bytes)
    ensures ViewAt(disk, m', t) == if t == v.sector then b.bytes else ViewAt(disk, m, t)
    ensures t == v.sector ==> ViewAt(disk, m, t) == v.bytes
  {
    if t == v.sector {
      assert Holds(m, t, v) && Holds(m', t, b);
    } else {
      assert forall d :: Holds(m', t, d) <==> Holds(m, t, d);
    }
  }

  /** Does a lookup of `s` rename the least recently used buffer? */
  predicate Recycles(c: Cache, s: nat) {
    && Position(c.lent, s) == |c.lent|
    && Position(c.cached, s) == |c.cached|
    && EXPECTED_CACHE_SIZE <= |c.cached|
  }

  function Victim(c: Cache): Buffer
    requires c.cached != []
  {
    c.cached[|c.cached| - 1]
  }

  /** It renames a buffer with changes that it cannot write back. */
  predicate LosesChanges(c: Cache, s: nat, io: Io) {
    Recycles(c, s) && Victim(c).dirty && !io.writeOk
  }

  /** It renames a buffer to the sector it once held, of which the disk has other bytes by now: the disk has
      changed since, or a failed read has written to the buffer. */
  predicate TakesOldBytes(c: Cache, s: nat) {
    Recycles(c, s) && Outdated(Victim(c), c.disk, s)
  }

  function NewBuffer(s: nat, size: nat): Buffer {
    Buffer(s, None, false, seq(size, _ => 0), 0)
  }

  /** BufferedVolume::sector: the lent buffer, else the cached one, else the least recently used one
      renamed, else a new one. */
  function Looked(c: Cache, s: nat, io: Io, size: nat): (Cache, bool) {
    var i, k, n := Position(c.lent, s), Position(c.cached, s), |c.cached| - 1;
    if i < |c.lent| then Borrowed(c, i, io)
    else if k < |c.cached| then Taken(c, c.cached[k], Without(c.cached, k), io)
    else if EXPECTED_CACHE_SIZE <= |c.cached| then Taken(c, c.cached[n].(sector := s), c.cached[..n], io)
    else Taken(c, NewBuffer(s, size), c.cached, io)
  }

  lemma {:induction false} Unbuffered(c: Cache, s: nat)
    requires Position(c.lent, s) == |c.lent| && Position(c.cached, s) == |c.cached|
    ensures Free(Buffers(c), s)
  {
    forall b | b in Buffers(c) ensures b.sector != s {
      assert b in c.lent || b in c.cached;
    }
  }

  /** A lookup, successful or not, leaves the cache sound unless it renames a buffer whose changes cannot
      be written back or whose old bytes it takes for those of the sector, and then it never does. As long
      as the cache is sound, every sector shows what it showed before. */
  lemma {:induction false} LookedKeepsView(c: Cache, s: nat, io: Io, size: nat)
    requires Sound(c, size)
    ensures var r := Looked(c, s, io, size);
            && (Sound(r.0, size) <==> !LosesChanges(c, s, io) && !TakesOldBytes(c, s))
            && (Sound(r.0, size) ==> View(r.0) == View(c))
  {
    hide Sound, View, Buffers, Taken, Borrowed;
    var i, k, n := Position(c.lent, s), Position(c.cached, s), |c.cached| - 1;
    if i < |c.lent| {
      BorrowedKeeps(c, i, io, size);
    } else if k < |c.cached| {
      WithoutRemoves(c.cached, k);
      TakenOrFailed(c, c.cached[k], c.cached[k], Without(c.cached, k), io, size);
    } else if EXPECTED_CACHE_SIZE <= |c.cached| {
      WithoutRemoves(c.cached, n);
      assert Without(c.cached, n) == c.cached[..n];
      Unbuffered(c, s);
      TakenOrFailed(c, c.cached[n], c.cached[n].(sector := s), c.cached[..n], io, size);
    } else {
      Unbuffered(c, s);
      LoadedKeeps(c, NewBuffer(s, size), io, size);
    }
  }

  lemma {:induction false} TakenOrFailed(c: Cache, v: Buffer, b: Buffer, rest: seq<Buffer>, io: Io, size: nat)
    requires Sound(c, size) && v in c.cached && multiset(rest) == multiset(c.cached) - multiset{v}
    requires b == v.(sector := b.sector) && (b.sector == v.sector || Free(Buffers(c), b.sector))
    ensures var r := Taken(c, b, rest, io);
            && (Sound(r.0, size) <==> (b.sector == v.sector || !v.dirty || io.writeOk) && !Outdated(v, c.disk, b.sector))
            && (Sound(r.0, size) ==> View(r.0) == View(c))
  {
    hide Sound, View, Buffers, Outdated;
    assert v in multiset(c.cached);
    VictimOk(c, v, size);
    if Taken(c, b, rest, io).1 {
      TakenKeeps(c, v, b, rest, io, size);
      OwnNotOutdated(c, v, b, rest, io);
    } else {
      FailedTakenKeeps(c, v, b, rest, io, size);
      OwnNotOutdated(c, v, b, rest, io);
    }
  }

  lemma {:induction false} VictimOk(c: Cache, v: Buffer, size: nat)
    requires Sound(c, size) && v in c.cached
    ensures v.dirty ==> v.loaded == Some(v.sector) && v.sector < |c.disk|
  {
    assert v in Buffers(c);
  }

  /** A lookup that succeeds wrote back what was dirty, and one that takes old bytes succeeds. */
  lemma {:induction false} OwnNotOutdated(c: Cache, v: Buffer, b: Buffer, rest: seq<Buffer>, io: Io)
    requires b == v.(sector := b.sector) && (v.dirty ==> v.loaded == Some(v.sector) && v.sector < |c.disk|)
    ensures Taken(c, b, rest, io).1 ==> !v.dirty || io.writeOk
    ensures Outdated(v, c.disk, b.sector) ==> Taken(c, b, rest, io).1
  {
  }

  /** Otherwise it shows wrong bytes: the victim's sector shows the disk without the changes, or the
      sector looked up shows the bytes it once had. */
  lemma {:induction false} LookedShowsWrong(c: Cache, s: nat, io: Io, size: nat)
    requires Sound(c, size)
    ensures LosesChanges(c, s, io) ==> var r, v := Looked(c, s, io, size), Victim(c);
            !r.1 && v.sector < |c.disk| == |r.0.disk| && View(c)[v.sector] == v.bytes && View(r.0)[v.sector] == c.disk[v.sector]
    ensures TakesOldBytes(c, s) && s < |c.disk| ==> var r, v := Looked(c, s, io, size), Victim(c);
            r.1 && |r.0.disk| == |c.disk| && View(c)[s] == c.disk[s] != v.bytes && View(r.0)[s] == v.bytes
  {
    hide Sound, View, Buffers;
    if LosesChanges(c, s, io) {
      LosesShowsDisk(c, s, io, size);
    }
    if TakesOldBytes(c, s) && s < |c.disk| {
      TakesShowsOld(c, s, io, size);
    }
  }

  lemma {:induction false} LosesShowsDisk(c: Cache, s: nat, io: Io, size: nat)
    requires Sound(c, size) && LosesChanges(c, s, io)
    ensures var r, v := Looked(c, s, io, size), Victim(c);
            !r.1 && v.sector < |c.disk| == |r.0.disk| && View(c)[v.sector] == v.bytes && View(r.0)[v.sector] == c.disk[v.sector]
  {
    var r, v := Looked(c, s, io, size), Victim(c);
    assert v in Buffers(c);
    FlushedBytes(c, v, size);
    Alone(c, v, size);
    assert r.0 == Cache(c.disk, c.lent, [v.(sector := s, refs := 0)] + c.cached[..|c.cached| - 1]);
    forall b | b in Buffers(r.0) ensures b.sector != v.sector {
      assert b == v.(sector := s, refs := 0) || b in c.lent || b in c.cached[..|c.cached| - 1];
    }
    assert forall b :: !Holds(Buffers(r.0), v.sector, b);
  }

  /** The victim's sector has no other buffer. */
  lemma {:induction false} Alone(c: Cache, v: Buffer, size: nat)
    requires Sound(c, size) && c.cached != [] && v == Victim(c)
    ensures forall b :: b in c.lent || b in c.cached[..|c.cached| - 1] ==> b.sector != v.sector
  {
    var n := |c.cached| - 1;
    assert c.cached == c.cached[..n] + [v];
    assert Buffers(c) == multiset(c.lent) + multiset(c.cached[..n]) + multiset{v};
    assert Buffers(c)[v] == 1;
    forall b | b in c.lent || b in c.cached[..n] ensures b.sector != v.sector {
      assert b in multiset(c.lent) + multiset(c.cached[..n]);
    }
  }

  lemma {:induction false} TakesShowsOld(c: Cache, s: nat, io: Io, size: nat)
    requires Sound(c, size) && TakesOldBytes(c, s) && s < |c.disk|
    ensures var r, v := Looked(c, s, io, size), Victim(c);
            r.1 && |r.0.disk| == |c.disk| && View(c)[s] == c.disk[s] != v.bytes && View(r.0)[s] == v.bytes
  {
    hide Looked;
    var r, v := Looked(c, s, io, size), Victim(c);
    Unbuffered(c, s);
    assert v in Buffers(c);
    TakesOldResult(c, s, io, size);
    assert forall b :: !Holds(Buffers(c), s, b);
    OnlyHolder(c, s, r.0, v.(sector := s, refs := 1));
  }

  lemma {:induction false} TakesOldResult(c: Cache, s: nat, io: Io, size: nat)
    requires Sound(c, size) && TakesOldBytes(c, s)
    ensures Looked(c, s, io, size)
         == (Cache(c.disk, c.lent + [Victim(c).(sector := s, refs := 1)], c.cached[..|c.cached| - 1]), true)
  {
    assert Victim(c) in Buffers(c);
  }

  lemma {:induction false} OnlyHolder(c: Cache, s: nat, c': Cache, w: Buffer)
    requires Free(Buffers(c), s) && w.sector == s && w.loaded == Some(s) && c.cached != []
    requires c' == Cache(c.disk, c.lent + [w], c.cached[..|c.cached| - 1])
    ensures Holds(Buffers(c'), s, w) && forall b :: Holds(Buffers(c'), s, b) ==> b == w
  {
    assert w in Buffers(c');
    forall b | b in Buffers(c') ensures b == w || b in Buffers(c) {
      assert b == w || b in c.lent || b in c.cached;
    }
  }

  /** No buffer holds another sector than its own. */
  ghost predicate Settled(c: Cache) {
    OwnSectors(c.lent) && OwnSectors(c.cached)
  }

  ghost predicate OwnSectors(bs: seq<Buffer>) {
    forall b :: b in bs ==> b.loaded == None || b.loaded == Some(b.sector)
  }

  /** A lookup in a settled cache takes no old bytes, and leaves the cache settled unless it fails after it
      renamed a loaded buffer. */
  lemma {:induction false} LookedSettled(c: Cache, s: nat, io: Io, size: nat)
    requires Settled(c)
    ensures !TakesOldBytes(c, s)
    ensures var r := Looked(c, s, io, size);
            Settled(r.0) <==> r.1 || !Recycles(c, s) || Victim(c).loaded == None
  {
    hide Initialized;
    var i, k, n := Position(c.lent, s), Position(c.cached, s), |c.cached| - 1;
    if i < |c.lent| {
      InitializedHolds(c.lent[i].(refs := c.lent[i].refs + 1), c.disk, io);
    } else if k < |c.cached| {
      InitializedHolds(c.cached[k].(refs := 1), c.disk, io);
    } else if EXPECTED_CACHE_SIZE <= |c.cached| {
      RecycledSettled(c, s, io);
    } else {
      InitializedHolds(NewBuffer(s, size).(refs := 1), c.disk, io);
    }
  }

  lemma {:induction false} RecycledSettled(c: Cache, s: nat, io: Io)
    requires Settled(c) && Recycles(c, s)
    ensures var r := Taken(c, Victim(c).(sector := s), c.cached[..|c.cached| - 1], io);
            Settled(r.0) <==> r.1 || Victim(c).loaded == None
  {
    hide Initialized;
    var b := Victim(c).(sector := s, refs := 1);
    InitializedHolds(b, c.disk, io);
    var r := Taken(c, Victim(c).(sector := s), c.cached[..|c.cached| - 1], io);
    assert Victim(c) in c.cached;
    if !r.1 {
      assert r.0.cached[0].sector == s && r.0.cached[0].loaded == Victim(c).loaded && r.0.cached[0] in r.0.cached;
    }
  }

  lemma {:induction false} InitializedHolds(b: Buffer, disk: Disk, io: Io)
    ensures var t := Initialized(b, disk, io); t.0.loaded == if t.2 then Some(b.sector) else b.loaded
  {
  }

  lemma {:induction false} DroppedSettled(c: Cache, i: nat)
    requires i < |c.lent| && c.lent[i].refs >= 1 && Settled(c)
    ensures Settled(Dropped(c, i))
  {
    assert c.lent[i] in c.lent;
    assert forall d :: d in c.lent[i := c.lent[|c.lent| - 1]][..|c.lent| - 1] ==> d in c.lent;
  }

  /** All buffers are of sectors that the volume has. */
  ghost predicate WithinDisk(c: Cache) {
    (forall b :: b in c.lent ==> b.sector < |c.disk|) && (forall b :: b in c.cached ==> b.sector < |c.disk|)
  }

  lemma {:induction false} TakenWithin(c: Cache, b: Buffer, rest: seq<Buffer>, io: Io)
    requires WithinDisk(c) && b.sector < |c.disk| && forall x :: x in rest ==> x in c.cached
    ensures WithinDisk(Taken(c, b, rest, io).0)
  {
    hide Initialized;
  }

  lemma {:induction false} BorrowedWithin(c: Cache, i: nat, io: Io)
    requires WithinDisk(c) && i < |c.lent|
    ensures WithinDisk(Borrowed(c, i, io).0)
  {
    hide Initialized;
    assert c.lent[i] in c.lent;
  }

  lemma {:induction false} LookedWithin(c: Cache, s: nat, io: Io, size: nat)
    requires WithinDisk(c) && s < |c.disk|
    ensures WithinDisk(Looked(c, s, io, size).0)
  {
    hide Taken, Borrowed, WithinDisk;
    var i, k, n := Position(c.lent, s), Position(c.cached, s), |c.cached| - 1;
    if i < |c.lent| {
      BorrowedWithin(c, i, io);
    } else if k < |c.cached| {
      TakenWithin(c, c.cached[k], Without(c.cached, k), io);
    } else if EXPECTED_CACHE_SIZE <= |c.cached| {
      TakenWithin(c, c.cached[n].(sector := s), c.cached[..n], io);
    } else {
      TakenWithin(c, NewBuffer(s, size), c.cached, io);
    }
  }

  lemma {:induction false} DroppedWithin(c: Cache, i: nat)
    requires WithinDisk(c) && i < |c.lent| && c.lent[i].refs >= 1
    ensures WithinDisk(Dropped(c, i))
  {
    assert c.lent[i] in c.lent;
    assert forall d :: d in c.lent[i := c.lent[|c.lent| - 1]][..|c.lent| - 1] ==> d in c.lent;
  }

  /** The transfers that make a buffer hold its sector work: its changes are written back, and what it does not hold
      yet is read. */
  predicate Loads(b: Buffer, count: nat, io: Io) {
    (b.dirty ==> io.writeOk) && (b.loaded == Some(b.sector) || (b.sector < count && io.readOk))
  }

  lemma {:induction false} InitializedExact(b: Buffer, disk: Disk, io: Io)
    requires b.dirty ==> b.loaded.Some? && b.loaded.value < |disk|
    ensures Initialized(b, disk, io).2 <==> Loads(b, |disk|, io)
  {
  }

  lemma {:induction false} ResidentLoads(c: Cache, b: Buffer, size: nat)
    requires Sound(c, size) && b in Buffers(c)
    ensures b.dirty ==> b.loaded.Some? && b.loaded.value < |c.disk|
  {
  }

  lemma {:induction false} BorrowedExact(c: Cache, i: nat, io: Io, size: nat)
    requires Sound(c, size) && i < |c.lent|
    ensures Borrowed(c, i, io).1 <==> Loads(c.lent[i], |c.disk|, io)
  {
    hide Sound, Initialized;
    assert c.lent[i] in Buffers(c);
    ResidentLoads(c, c.lent[i], size);
    InitializedExact(c.lent[i].(refs := c.lent[i].refs + 1), c.disk, io);
  }

  lemma {:induction false} TakenExact(c: Cache, b: Buffer, rest: seq<Buffer>, io: Io)
    requires b.dirty ==> b.loaded.Some? && b.loaded.value < |c.disk|
    ensures Taken(c, b, rest, io).1 <==> Loads(b, |c.disk|, io)
  {
    hide Initialized;
    InitializedExact(b.(refs := 1), c.disk, io);
  }

  /** The buffer that a lookup of `s` uses: a lent one, a cached one, the last cached one, or a new one. */
  function Candidate(c: Cache, s: nat, size: nat): Buffer {
    var i, k := Position(c.lent, s), Position(c.cached, s);
    if i < |c.lent| then c.lent[i]
    else if k < |c.cached| then c.cached[k]
    else if EXPECTED_CACHE_SIZE <= |c.cached| then Victim(c).(sector := s)
    else NewBuffer(s, size)
  }

  /** A lookup succeeds exactly when the transfers that its buffer needs work. */
  lemma {:induction false} LookedExact(c: Cache, s: nat, io: Io, size: nat)
    requires Sound(c, size)
    ensures Looked(c, s, io, size).1 <==> Loads(Candidate(c, s, size), |c.disk|, io)
  {
    hide Sound, Borrowed, Taken, Loads;
    var i, k, n := Position(c.lent, s), Position(c.cached, s), |c.cached| - 1;
    if i < |c.lent| {
      BorrowedExact(c, i, io, size);
    } else if k < |c.cached| {
      assert c.cached[k] in Buffers(c);
      ResidentLoads(c, c.cached[k], size);
      TakenExact(c, c.cached[k], Without(c.cached, k), io);
    } else if EXPECTED_CACHE_SIZE <= |c.cached| {
      assert c.cached[n] in Buffers(c);
      ResidentLoads(c, c.cached[n], size);
      TakenExact(c, c.cached[n].(sector := s), c.cached[..n], io);
    } else {
      TakenExact(c, NewBuffer(s, size), c.cached, io);
    }
  }

  lemma CandidateLoads(c: Cache, s: nat, size: nat, io: Io)
    requires s < |c.disk| && io.readOk && io.writeOk
    ensures Loads(Candidate(c, s, size), |c.disk|, io)
  {
  }

  /** A successful lookup lends the sector. */
  lemma {:induction false} LookedLends(c: Cache, s: nat, io: Io, size: nat)
    requires Looked(c, s, io, size).1
    ensures var lent' := Looked(c, s, io, size).0.lent;
            && Position(lent', s) < |lent'|
  {
    hide Initialized;
    var lent' := Looked(c, s, io, size).0.lent;
    var i := Position(c.lent, s);
    assert i < |lent'| && lent'[i].sector == s && lent'[i] in lent';
  }

  /** With nothing lent a lookup lends the buffer of the sector, or nothing. */
  lemma {:induction false} LookedOne(c: Cache, s: nat, io: Io, size: nat)
    requires c.lent == []
    ensures var r := Looked(c, s, io, size);
            && |r.0.disk| == |c.disk| && |r.0.lent| == (if r.1 then 1 else 0)
            && (r.1 ==> r.0.lent[0].sector == s && r.0.lent[0].refs == 1)
  {
    hide Initialized;
  }

  lemma {:induction false} TwoIndices(bs: seq<Buffer>, j: nat, k: nat)
    requires j < |bs| && k < |bs| && j != k && bs[j] == bs[k]
    ensures multiset(bs)[bs[j]] >= 2
  {
    var t := Without(bs, k);
    WithoutRemoves(bs, k);
    assert t[if j < k then j else j - 1] == bs[j];
    assert bs[j] in multiset(t);
  }

  /** The position of a cached buffer is its own index, and it is not lent. */
  lemma {:induction false} CachedIndex(c: Cache, j: nat, size: nat)
    requires Sound(c, size) && j < |c.cached|
    ensures Position(c.lent, c.cached[j].sector) == |c.lent|
    ensures Position(c.cached, c.cached[j].sector) == j
  {
    var b := c.cached[j];
    var i, k := Position(c.lent, b.sector), Position(c.cached, b.sector);
    assert b in multiset(c.cached) && b in Buffers(c) && b !in multiset(c.lent);
    assert forall x :: x in c.lent ==> x in Buffers(c) && x != b;
    assert b in c.cached && k < |c.cached|;
    assert c.cached[k] in Buffers(c);
    if k != j {
      TwoIndices(c.cached, j, k);
    }
  }

  /** What a cached buffer becomes when its sector is written back. */
  ghost function Flushed(b: Buffer, view: Disk): Buffer {
    if b.sector < |view| then Buffer(b.sector, Some(b.sector), false, view[b.sector], 0) else b
  }

  /** One round of BufferedVolume::commit: the buffer is flushed and moved to the front. */
  lemma {:induction false} FlushedNext(c: Cache, j: nat, io: Io, size: nat)
    requires Sound(c, size) && j < |c.cached|
    requires Looked(c, c.cached[j].sector, io, size).1
    ensures var c1 := Looked(c, c.cached[j].sector, io, size).0;
            && Position(c1.lent, c.cached[j].sector) == |c.lent| == |c1.lent| - 1
            && !c1.lent[|c.lent|].dirty && c1.lent[|c.lent|].refs == 1
            && Dropped(c1, |c.lent|) == Cache(c1.disk, c.lent, [Flushed(c.cached[j], View(c))] + Without(c.cached, j))
  {
    hide Sound, View, Initialized, Flushed;
    var e := c.cached[j];
    CachedIndex(c, j, size);
    var t := Initialized(e.(refs := 1), c.disk, io);
    FlushedBuffer(c, j, io, size);
    var c1 := Looked(c, e.sector, io, size).0;
    assert c1.lent == c.lent + [t.0];
    AppendedPosition(c.lent, t.0);
    assert c1.lent[|c.lent| := c1.lent[|c1.lent| - 1]][..|c1.lent| - 1] == c.lent;
  }

  lemma {:induction false} AppendedPosition(bs: seq<Buffer>, b: Buffer)
    requires Position(bs, b.sector) == |bs|
    ensures Position(bs + [b], b.sector) == |bs|
  {
    assert (bs + [b])[|bs|] == b && b in bs + [b];
    assert forall k :: 0 <= k < |bs| ==> bs[k] in bs && (bs + [b])[k] == bs[k];
  }

  lemma {:induction false} FlushedBuffer(c: Cache, j: nat, io: Io, size: nat)
    requires Sound(c, size) && j < |c.cached| && Initialized(c.cached[j].(refs := 1), c.disk, io).2
    ensures var t := Initialized(c.cached[j].(refs := 1), c.disk, io);
            !t.0.dirty && t.0.(refs := 0) == Flushed(c.cached[j], View(c))
  {
    var e := c.cached[j];
    assert e in Buffers(c);
    FlushedBytes(c, e, size);
  }

  lemma {:induction false} FlushedBytes(c: Cache, e: Buffer, size: nat)
    requires Sound(c, size) && e in Buffers(c) && e.sector < |c.disk|
    ensures View(c)[e.sector] == if e.loaded == Some(e.sector) then e.bytes else c.disk[e.sector]
  {
    if e.loaded == Some(e.sector) {
      assert Holds(Buffers(c), e.sector, e);
    } else {
      assert forall b :: !Holds(Buffers(c), e.sector, b);
    }
  }

  /** Without dirty buffers the disk shows everything. */
  lemma {:induction false} CleanView(c: Cache, size: nat)
    requires Sound(c, size) && (forall b :: b in Buffers(c) ==> !b.dirty)
    ensures View(c) == c.disk
  {
  }

  /** `now` is `was` with its first `j` buffers flushed, in reverse. */
  ghost predicate FlushedUpTo(was: seq<Buffer>, now: seq<Buffer>, j: nat, view: Disk) {
    && j <= |was| == |now|
    && (forall k :: 0 <= k < j ==> now[k] == Flushed(was[j - 1 - k], view))
    && (forall k :: j <= k < |was| ==> now[k] == was[k])
  }

  lemma {:induction false} FlushedOneMore(was: seq<Buffer>, now: seq<Buffer>, next: seq<Buffer>, j: nat, view: Disk)
    requires FlushedUpTo(was, now, j, view) && j < |was|
    requires next == [Flushed(now[j], view)] + Without(now, j)
    ensures FlushedUpTo(was, next, j + 1, view)
  {
    assert forall k :: 1 <= k <= j ==> next[k] == now[k - 1];
    assert forall k :: j < k < |now| ==> next[k] == now[k];
  }

  lemma {:induction false} FlushedClean(c: Cache, was: seq<Buffer>, size: nat)
    requires Sound(c, size) && c.lent == [] && FlushedUpTo(was, c.cached, |was|, View(c))
    ensures View(c) == c.disk
  {
    forall b | b in Buffers(c) ensures !b.dirty {
      assert b in c.cached;
      var k :| 0 <= k < |c.cached| && c.cached[k] == b;
      assert b == Flushed(was[|was| - 1 - k], View(c));
    }
    CleanView(c, size);
  }

  /** BufferedVolume together with the volume below it. */
  class BufferedVolume {
    const size: nat
    var disk: Disk
    var lent: seq<Buffer>
    var cached: seq<Buffer>
    ghost var peak: nat  // the largest number of buffers ever lent at once

    function State(): Cache
      reads this
    {
      Cache(disk, lent, cached)
    }

    ghost predicate Valid()
      reads this
    {
      && Sound(State(), size)
      && Bounded()
    }

    /** There are never more than seven buffers beyond the largest number ever lent at once. */
    ghost predicate Bounded()
      reads this
    {
      |lent| <= peak && |lent| + |cached| <= 7 + peak
    }

    constructor (size: nat, disk: Disk)
      requires DiskOk(disk, size)
      ensures Valid() && fresh(this) && this.size == size && State() == Cache(disk, [], [])
      ensures View(State()) == disk
    {
      this.size := size;
      this.disk := disk;
      lent := [];
      cached := [];
      peak := 0;
      new;
      assert forall s, b :: !Holds(Buffers(State()), s, b);
    }

    /** Drop of a BufferedSectorRef to the lent buffer `i`. */
    method Drop(i: nat)
      requires i < |lent| && lent[i].refs >= 1
      modifies this`lent, this`cached
      ensures State() == Dropped(old(State()), i)
    {
      var b := lent[i].(refs := lent[i].refs - 1);
      if b.refs > 0 {
        lent := lent[i := b];
      } else {
        cached := [b] + cached;
        lent := lent[i := lent[|lent| - 1]][..|lent| - 1];
      }
    }

    /** Lends `b`, which is in neither list, and initializes it; a failure gives it to the cache. */
    method Lend(b: Buffer, io: Io) returns (ok: bool)
      modifies this
      ensures (State(), ok) == Taken(old(State()), b, old(cached), io)
      ensures peak == if old(peak) < |old(lent)| + 1 then |old(lent)| + 1 else old(peak)
    {
      hide Initialized;
      var t := Initialized(b.(refs := 1), disk, io);
      lent := lent + [t.0];
      peak := if peak < |lent| then |lent| else peak;
      disk := t.1;
      ok := t.2;
      if !ok {
        Drop(|lent| - 1);
      }
    }

    /** Another reference to the lent buffer `i`. */
    method Borrow(i: nat, io: Io) returns (ok: bool)
      requires i < |lent|
      modifies this`lent, this`disk
      ensures (State(), ok) == Borrowed(old(State()), i, io) && |lent| == |old(lent)|
    {
      hide Initialized;
      var t := Initialized(lent[i].(refs := lent[i].refs + 1), disk, io);
      lent := lent[i := t.0];
      disk := t.1;
      ok := t.2;
      if !ok {
        lent := lent[i := t.0.(refs := t.0.refs - 1)];
        assert lent == old(lent)[i := t.0.(refs := old(lent)[i].refs)];
      }
    }

    method Sector(s: nat, io: Io) returns (r: Result<nat, VolumeError>)
      requires Valid()
      modifies this
      ensures State() == Looked(old(State()), s, io, size).0
      ensures r == if Looked(old(State()), s, io, size).1 then Ok(s) else Err(IoError(s))
      ensures r.Ok? <==> old(Loads(Candidate(State(), s, size), |disk|, io))
      ensures s < |old(disk)| && io.readOk && io.writeOk ==> r.Ok?
      ensures Valid() <==> !old(LosesChanges(State(), s, io)) && !old(TakesOldBytes(State(), s))
      ensures old(Settled(State())) ==> !old(TakesOldBytes(State(), s))
      ensures old(Settled(State())) && (r.Ok? || !old(Recycles(State(), s))) ==> Settled(State())
      ensures old(WithinDisk(State())) && s < |old(disk)| ==> WithinDisk(State())
      ensures Valid() ==> View(State()) == old(View(State()))
      ensures r.Ok? ==> Position(lent, s) < |lent|
    {
      hide Sound, View, Looked, Settled, Loads, Candidate, WithinDisk;
      if WithinDisk(State()) && s < |disk| { LookedWithin(State(), s, io, size); }
      LookedKeepsView(State(), s, io, size);
      LookedExact(State(), s, io, size);
      if Settled(State()) { LookedSettled(State(), s, io, size); }
      if s < |disk| && io.readOk && io.writeOk { CandidateLoads(State(), s, size, io); }
      if Looked(State(), s, io, size).1 { LookedLends(State(), s, io, size); }
      var ok := Look(s, io);
      r := if ok then Ok(s) else Err(IoError(s));
    }

    method Look(s: nat, io: Io) returns (ok: bool)
      requires Bounded()
      modifies this
      ensures (State(), ok) == Looked(old(State()), s, io, size)
      ensures Bounded()
    {
      hide Initialized;
      var i := Position(lent, s);
      if i < |lent| {
        ok := Borrow(i, io);
      } else {
        var k := Position(cached, s);
        var b;
        if k < |cached| {
          b, cached := cached[k], Without(cached, k);
        } else if EXPECTED_CACHE_SIZE <= |cached| {
          b, cached := cached[|cached| - 1].(sector := s), cached[..|cached| - 1];
        } else {
          b := NewBuffer(s, size);
        }
        ok := Lend(b, io);
      }
    }

    /** A write through a reference to the lent buffer `i`, marked dirty. */
    method Store(i: nat, off: nat, data: seq<byte>)
      requires Valid() && i < |lent| && off + |data| <= |lent[i].bytes|
      modifies this`lent
      ensures Valid() && State() == Stored(old(State()), i, off, data)
      ensures old(Settled(State())) ==> Settled(State())
      ensures old(WithinDisk(State())) ==> WithinDisk(State())
    {
      hide Coherent;
      assert lent[i] in lent;
      StoredChangesView(State(), i, off, data, size);
      lent := lent[i := lent[i].(dirty := true, bytes := Splice(lent[i].bytes, off, data))];
    }

    /** Release of a reference. */
    method Release(i: nat)
      requires Valid() && i < |lent|
      modifies this
      ensures Valid() && State() == Dropped(old(State()), i)
      ensures View(State()) == old(View(State()))
      ensures old(Settled(State())) ==> Settled(State())
      ensures old(WithinDisk(State())) ==> WithinDisk(State())
    {
      hide Coherent, View, Settled, WithinDisk;
      assert lent[i] in lent;
      DroppedKeeps(State(), i, size);
      if WithinDisk(State()) { DroppedWithin(State(), i); }
      if Settled(State()) { DroppedSettled(State(), i); }
      Drop(i);
    }

    /** BufferedSector::commit of the lent buffer `i`. */
    method CommitBuffer(i: nat, io: Io) returns (ok: bool)
      requires i < |lent|
      modifies this`lent, this`disk
      ensures !old(lent)[i].dirty ==> ok && State() == old(State())
      ensures ok == Committed(old(lent)[i], old(disk), io).2
      ensures disk == Committed(old(lent)[i], old(disk), io).1
      ensures lent == old(lent)[i := Committed(old(lent)[i], old(disk), io).0]
    {
      var t := Committed(lent[i], disk, io);
      lent, disk, ok := lent[i := t.0], t.1, t.2;
      assert !old(lent)[i].dirty ==> lent == old(lent);
    }

    /** One round of `Commit`: the cached buffer `j` is written back and moved to the front. */
    method Flush(j: nat, io: Io) returns (r: Result<(), VolumeError>)
      requires Valid() && j < |cached|
      modifies this
      ensures Valid() && View(State()) == old(View(State())) && lent == old(lent)
      ensures old(Settled(State())) ==> Settled(State())
      ensures old(WithinDisk(State())) ==> WithinDisk(State())
      ensures r.Ok? <==> Loads(old(cached)[j], |old(disk)|, io)
      ensures r.Ok? ==> cached == [Flushed(old(cached)[j], old(View(State())))] + Without(old(cached), j) && |disk| == |old(disk)|
    {
      hide Sound, View, Initialized, Settled, Loads;
      CachedIndex(State(), j, size);
      assert cached[j] in cached;
      var s := cached[j].sector;
      var t := Sector(s, io);
      if t.Err? {
        return Err(t.error);
      }
      FlushedNext(old(State()), j, io, size);
      var i := Position(lent, s);
      var ok := CommitBuffer(i, io);
      Release(i);
      return Ok(());
    }

    /** Writes back the cached buffers, with the outcome `io(j)` for the j-th of them. The cache comes
        out clean and in reverse order; lent buffers stay as they are. */
    method Commit(io: nat -> Io) returns (r: Result<(), VolumeError>)
      requires Valid()
      modifies this
      ensures Valid() && View(State()) == old(View(State())) && lent == old(lent)
      ensures old(Settled(State())) ==> Settled(State())
      ensures old(WithinDisk(State())) ==> WithinDisk(State())
      ensures r.Ok? <==> forall j: nat :: j < |old(cached)| ==> Loads(old(cached)[j], |old(disk)|, io(j))
      ensures r.Ok? ==> FlushedUpTo(old(cached), cached, |old(cached)|, old(View(State())))
      ensures r.Ok? && lent == [] ==> disk == old(View(State()))
    {
      hide Sound, View, Settled, Loads, WithinDisk;
      var n := |cached|;
      for j := 0 to n
        invariant Valid() && View(State()) == old(View(State())) && lent == old(lent)
        invariant old(Settled(State())) ==> Settled(State())
        invariant old(WithinDisk(State())) ==> WithinDisk(State())
        invariant FlushedUpTo(old(cached), cached, j, old(View(State()))) && |disk| == |old(disk)|
        invariant forall k: nat :: k < j ==> Loads(old(cached)[k], |old(disk)|, io(k))
      {
        ghost var before := cached;
        var t := Flush(j, io(j));
        if t.Err? {
          return t;
        }
        FlushedOneMore(old(cached), before, cached, j, old(View(State())));
      }
      if lent == [] {
        FlushedClean(State(), old(cached), size);
      }
      return Ok(());
    }
  }
}
