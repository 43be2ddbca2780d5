/** The FAT and the clusters of fs/fat/low_level.rs, over the sectors the cache shows. */
module LowLevel {
  import opened Bytes
  import opened Volume
  import opened BootSectors
  import opened FatEntries

  /** The file allocation table and the bytes of every cluster; clusters 0 and 1 do not exist. */
  datatype Fs = Fs(fat: seq<FatEntry>, data: seq<seq<byte>>) {

    /** With entry `n` of the table set to `e`. */
    function Link(n: nat, e: FatEntry): Fs
      requires n < |fat|
    {
      this.(fat := fat[n := e])
    }

    /** With the bytes of cluster `n` from `off` on replaced by `b`. */
    function Store(n: nat, off: nat, b: seq<byte>): Fs
      requires n < |data| && off + |b| <= |data[n]|
    {
      this.(data := data[n := Splice(data[n], off, b)])
    }
  }

  /** All clusters have `size` bytes, and all cluster numbers fit into a table entry. */
  ghost predicate Shaped(fs: Fs, size: nat) {
    && size > 0
    && 2 <= |fs.fat| == |fs.data| <= 0x0fff_fff7
    && forall n :: 2 <= n < |fs.data| ==> |fs.data[n]| == size
  }

  ghost predicate ViewOk(bs: BootSector, view: Disk) {
    bs.Consistent() && bs.totalSectors <= |view| && DiskOk(view, bs.sectorSize)
  }

  ghost function FatAt(bs: BootSector, view: Disk, n: nat): FatEntry
    requires ViewOk(bs, view) && bs.IsClusterAvailable(n)
  {
    bs.FatSlotInFirstFat(n);
    var off := bs.FatEntryOffset(n);
    Decode(U32FromLe(view[bs.FatEntrySector(n)][off..off + 4]))
  }

  /** The four bytes of the slot of cluster `n`: those from `4 * n` on in the first FAT. */
  ghost function SlotBytes(bs: BootSector, view: Disk, n: nat): (b: seq<byte>)
    requires ViewOk(bs, view) && bs.IsClusterAvailable(n)
    ensures |b| == 4
  {
    bs.FatSlotInFirstFat(n);
    view[bs.FatEntrySector(n)][bs.FatEntryOffset(n)..bs.FatEntryOffset(n) + 4]
  }

  /** The table holds exactly what the slots on the volume stand for. */
  lemma {:induction false} SlotMeans(bs: BootSector, view: Disk, n: nat, e: FatEntry)
    requires ViewOk(bs, view) && bs.IsClusterAvailable(n)
    ensures FsOf(bs, view).fat[n] == e <==> Means(SlotBytes(bs, view, n), e)
  {
    hide Decode, Means, U32FromLe, BootSector.FatEntrySector, BootSector.FatEntryOffset;
    DecodeMeans(SlotBytes(bs, view, n), e);
  }

  /** Byte `k` of cluster `n` is byte `k % sectorSize` of its sector `k / sectorSize`. */
  ghost function ByteAt(bs: BootSector, view: Disk, n: nat, k: nat): byte
    requires ViewOk(bs, view) && bs.IsClusterAvailable(n) && k < bs.ClusterBytes()
  {
    bs.ClusterInDataArea(n);
    QuotientBelow(k, bs.sectorSize, bs.clusterSize);
    view[bs.ClusterLocation(n) + k / bs.sectorSize][k % bs.sectorSize]
  }

  ghost function DataAt(bs: BootSector, view: Disk, n: nat): (d: seq<byte>)
    requires ViewOk(bs, view) && bs.IsClusterAvailable(n)
    ensures |d| == bs.ClusterBytes()
    ensures forall k :: 0 <= k < bs.ClusterBytes() ==> d[k] == ByteAt(bs, view, n, k)
  {
    seq(bs.ClusterBytes(), k requires 0 <= k < bs.ClusterBytes() => ByteAt(bs, view, n, k))
  }

  ghost function FatSlot(bs: BootSector, view: Disk, n: nat): FatEntry
    requires ViewOk(bs, view)
  {
    if bs.IsClusterAvailable(n) then FatAt(bs, view, n) else Reserved
  }

  ghost function DataSlot(bs: BootSector, view: Disk, n: nat): seq<byte>
    requires ViewOk(bs, view)
  {
    if bs.IsClusterAvailable(n) then DataAt(bs, view, n) else []
  }

  ghost function FsOf(bs: BootSector, view: Disk): (fs: Fs)
    requires ViewOk(bs, view)
    ensures |fs.fat| == |fs.data| == bs.ClusterCount() + 2
  {
    var n := bs.ClusterCount() + 2;
    Fs(seq(n, i requires i >= 0 => FatSlot(bs, view, i)), seq(n, i requires i >= 0 => DataSlot(bs, view, i)))
  }

  /** A write of `b` at offset `off` of sector `s`. */
  function Written(view: Disk, s: nat, off: nat, b: seq<byte>): Disk
    requires s < |view| && off + |b| <= |view[s]|
  {
    view[s := Splice(view[s], off, b)]
  }

  lemma {:induction false} WrittenOk(bs: BootSector, view: Disk, s: nat, off: nat, b: seq<byte>)
    requires ViewOk(bs, view) && s < |view| && off + |b| <= |view[s]|
    ensures ViewOk(bs, Written(view, s, off, b))
  {
  }

  lemma {:induction false} FatAfterFatWrite(bs: BootSector, view: Disk, n: nat, e: FatEntry, m: nat)
    requires ViewOk(bs, view) && bs.IsClusterAvailable(n) && bs.IsClusterAvailable(m) && e.Encodable()
    requires bs.FatEntrySector(n) < |view| && bs.FatEntryOffset(n) + 4 <= |view[bs.FatEntrySector(n)]|
    ensures ViewOk(bs, Written(view, bs.FatEntrySector(n), bs.FatEntryOffset(n), U32ToLe(Encode(e))))
    ensures FatAt(bs, Written(view, bs.FatEntrySector(n), bs.FatEntryOffset(n), U32ToLe(Encode(e))), m)
         == if m == n then e else FatAt(bs, view, m)
  {
    hide Encode, Decode, U32ToLe, U32FromLe, BootSector.DataAreaStart, BootSector.ClusterCount,
      BootSector.FatEntrySector, BootSector.FatEntryOffset;
    var s, off, b := bs.FatEntrySector(n), bs.FatEntryOffset(n), U32ToLe(Encode(e));
    WrittenOk(bs, view, s, off, b);
    bs.FatSlotInFirstFat(m);
    EncodeRoundTrip(e);
    var t, o := bs.FatEntrySector(m), bs.FatEntryOffset(m);
    if m == n {
      assert Splice(view[s], off, b)[off..off + 4] == b;
    } else if t == s {
      if n < m { bs.FatSlotsDisjoint(n, m); } else { bs.FatSlotsDisjoint(m, n); }
      assert Splice(view[s], off, b)[o..o + 4] == view[s][o..o + 4];
    }
  }

  lemma {:induction false} DataAfterFatWrite(bs: BootSector, view: Disk, s: nat, off: nat, b: seq<byte>, m: nat)
    requires ViewOk(bs, view) && s < bs.DataAreaStart() && off + |b| <= |view[s]| && bs.IsClusterAvailable(m)
    ensures ViewOk(bs, Written(view, s, off, b))
    ensures DataAt(bs, Written(view, s, off, b), m) == DataAt(bs, view, m)
  {
    WrittenOk(bs, view, s, off, b);
    bs.ClusterInDataArea(m);
    assert forall k :: 0 <= k < bs.ClusterBytes() ==> ByteAt(bs, Written(view, s, off, b), m, k) == ByteAt(bs, view, m, k);
  }

  lemma {:induction false} FatAfterDataWrite(bs: BootSector, view: Disk, s: nat, off: nat, b: seq<byte>, m: nat)
    requires ViewOk(bs, view) && bs.DataAreaStart() <= s < |view| && off + |b| <= |view[s]| && bs.IsClusterAvailable(m)
    ensures ViewOk(bs, Written(view, s, off, b))
    ensures FatAt(bs, Written(view, s, off, b), m) == FatAt(bs, view, m)
  {
    WrittenOk(bs, view, s, off, b);
    bs.FatSlotInFirstFat(m);
  }

  lemma {:induction false} ByteAfterDataWrite(bs: BootSector, view: Disk, n: nat, q: nat, off: nat, b: seq<byte>,
      m: nat, k: nat)
    requires ViewOk(bs, view) && bs.IsClusterAvailable(n) && bs.IsClusterAvailable(m) && q < bs.clusterSize
    requires off + |b| <= bs.sectorSize && k < bs.ClusterBytes()
    requires bs.ClusterLocation(n) + q < |view| && |view[bs.ClusterLocation(n) + q]| == bs.sectorSize
    ensures ViewOk(bs, Written(view, bs.ClusterLocation(n) + q, off, b))
    ensures ByteAt(bs, Written(view, bs.ClusterLocation(n) + q, off, b), m, k)
         == if m == n && k / bs.sectorSize == q && off <= k % bs.sectorSize < off + |b| then b[k % bs.sectorSize - off]
            else ByteAt(bs, view, m, k)
  {
    hide BootSector.DataAreaStart, BootSector.ClusterCount, BootSector.ClusterLocation;
    var s := bs.ClusterLocation(n) + q;
    WrittenOk(bs, view, s, off, b);
    bs.ClusterInDataArea(m);
    QuotientBelow(k, bs.sectorSize, bs.clusterSize);
    ClustersApart(bs, n, m, q, k / bs.sectorSize);
  }

  /** A write into sector `q` of cluster `n` is a write into the flat bytes of the cluster, and
      leaves every other cluster as it is. */
  lemma {:induction false} DataAfterDataWrite(bs: BootSector, view: Disk, n: nat, q: nat, off: nat, b: seq<byte>,
      m: nat)
    requires ViewOk(bs, view) && bs.IsClusterAvailable(n) && bs.IsClusterAvailable(m) && q < bs.clusterSize
    requires off + |b| <= bs.sectorSize && q * bs.sectorSize + off + |b| <= bs.ClusterBytes()
    requires bs.ClusterLocation(n) + q < |view| && |view[bs.ClusterLocation(n) + q]| == bs.sectorSize
    ensures ViewOk(bs, Written(view, bs.ClusterLocation(n) + q, off, b))
    ensures DataAt(bs, Written(view, bs.ClusterLocation(n) + q, off, b), m)
         == if m == n then Splice(DataAt(bs, view, m), q * bs.sectorSize + off, b) else DataAt(bs, view, m)
  {
    hide BootSector.DataAreaStart, BootSector.ClusterCount, BootSector.ClusterLocation, ByteAt,
      BootSector.ClusterBytes, BootSector.Consistent;
    var s, base := bs.ClusterLocation(n) + q, q * bs.sectorSize;
    WrittenOk(bs, view, s, off, b);
    SplicedData(bs, view, n, q, off, b, m, base);
  }

  lemma {:induction false} SplicedData(bs: BootSector, view: Disk, n: nat, q: nat, off: nat, b: seq<byte>, m: nat,
      base: nat)
    requires ViewOk(bs, view) && bs.IsClusterAvailable(n) && bs.IsClusterAvailable(m) && q < bs.clusterSize
    requires off + |b| <= bs.sectorSize && base == q * bs.sectorSize && base + off + |b| <= bs.ClusterBytes()
    requires bs.ClusterLocation(n) + q < |view| && |view[bs.ClusterLocation(n) + q]| == bs.sectorSize
    requires ViewOk(bs, Written(view, bs.ClusterLocation(n) + q, off, b))
    ensures DataAt(bs, Written(view, bs.ClusterLocation(n) + q, off, b), m)
         == if m == n then Splice(DataAt(bs, view, m), base + off, b) else DataAt(bs, view, m)
  {
    hide BootSector.DataAreaStart, BootSector.ClusterCount, BootSector.ClusterLocation, ByteAt,
      BootSector.ClusterBytes, BootSector.Consistent;
    var view' := Written(view, bs.ClusterLocation(n) + q, off, b);
    var d, d0 := DataAt(bs, view', m), DataAt(bs, view, m);
    forall k: nat | k < bs.ClusterBytes() ensures d[k] == if m == n && base + off <= k < base + off + |b| then b[k - (base + off)] else d0[k] {
      SplicedByte(bs, view, n, q, off, b, m, base, k);
    }
  }

  lemma {:induction false} SplicedByte(bs: BootSector, view: Disk, n: nat, q: nat, off: nat, b: seq<byte>, m: nat,
      base: nat, k: nat)
    requires ViewOk(bs, view) && bs.IsClusterAvailable(n) && bs.IsClusterAvailable(m) && q < bs.clusterSize
    requires off + |b| <= bs.sectorSize && base == q * bs.sectorSize && k < bs.ClusterBytes()
    requires bs.ClusterLocation(n) + q < |view| && |view[bs.ClusterLocation(n) + q]| == bs.sectorSize
    requires ViewOk(bs, Written(view, bs.ClusterLocation(n) + q, off, b))
    ensures ByteAt(bs, Written(view, bs.ClusterLocation(n) + q, off, b), m, k)
         == if m == n && base + off <= k < base + off + |b| then b[k - (base + off)] else ByteAt(bs, view, m, k)
  {
    SectorSizePositive(bs);
    hide BootSector.DataAreaStart, BootSector.ClusterCount, BootSector.ClusterLocation, ByteAt,
      BootSector.ClusterBytes, BootSector.Consistent, ViewOk;
    ByteAfterDataWrite(bs, view, n, q, off, b, m, k);
    SameQuotient(k, bs.sectorSize, q);
  }

  lemma SectorSizePositive(bs: BootSector)
    requires bs.Consistent()
    ensures bs.sectorSize > 0
  {
    hide BootSector.ClusterCount;
  }

  lemma {:induction false} ClustersApart(bs: BootSector, n: nat, m: nat, q: nat, p: nat)
    requires 2 <= n && 2 <= m && q < bs.clusterSize && p < bs.clusterSize
    ensures bs.ClusterLocation(n) + q == bs.ClusterLocation(m) + p <==> n == m && p == q
  {
    if m < n {
      bs.ClustersDisjoint(m, n);
    } else if n < m {
      bs.ClustersDisjoint(n, m);
    }
  }

  lemma {:induction false} NextMultiple(p: nat, q: nat, d: nat)
    requires p < q
    ensures p * d + d <= q * d
  {
    assert (q - p - 1) * d >= 0;
    assert q * d == p * d + d + (q - p - 1) * d;
  }

  /** `k / d == q` exactly when `k` lies in the `q`-th block of `d`. */
  lemma {:induction false} SameQuotient(k: nat, d: nat, q: nat)
    requires d > 0
    ensures k / d == q <==> q * d <= k < q * d + d
    ensures k / d == q ==> k % d == k - q * d
  {
    var p := k / d;
    assert k == p * d + k % d;
    if p < q {
      NextMultiple(p, q, d);
    } else if q < p {
      NextMultiple(q, p, d);
    }
  }

  /** Writing a FAT slot sets that entry and nothing else. */
  lemma {:induction false} FsAfterFatWrite(bs: BootSector, view: Disk, n: nat, e: FatEntry)
    requires ViewOk(bs, view) && bs.IsClusterAvailable(n) && e.Encodable()
    requires bs.FatEntrySector(n) < |view| && bs.FatEntryOffset(n) + 4 <= |view[bs.FatEntrySector(n)]|
    ensures var view' := Written(view, bs.FatEntrySector(n), bs.FatEntryOffset(n), U32ToLe(Encode(e)));
            ViewOk(bs, view') && FsOf(bs, view') == FsOf(bs, view).Link(n, e)
  {
    hide FatAt, DataAt, Encode;
    var s, off, b := bs.FatEntrySector(n), bs.FatEntryOffset(n), U32ToLe(Encode(e));
    var view' := Written(view, s, off, b);
    WrittenOk(bs, view, s, off, b);
    bs.FatSlotInFirstFat(n);
    var fs, fs' := FsOf(bs, view), FsOf(bs, view');
    forall m | 0 <= m < |fs.fat| ensures fs'.fat[m] == fs.fat[n := e][m] && fs'.data[m] == fs.data[m] {
      if bs.IsClusterAvailable(m) {
        FatAfterFatWrite(bs, view, n, e, m);
        DataAfterFatWrite(bs, view, s, off, b, m);
      }
    }
  }

  /** Writing into a sector of a cluster changes the bytes of that cluster and nothing else. */
  lemma {:induction false} FsAfterDataWrite(bs: BootSector, view: Disk, n: nat, q: nat, off: nat, b: seq<byte>)
    requires ViewOk(bs, view) && bs.IsClusterAvailable(n) && q < bs.clusterSize
    requires off + |b| <= bs.sectorSize && q * bs.sectorSize + off + |b| <= bs.ClusterBytes()
    requires bs.ClusterLocation(n) + q < |view| && |view[bs.ClusterLocation(n) + q]| == bs.sectorSize
    requires |FsOf(bs, view).data[n]| == bs.ClusterBytes()
    ensures var view' := Written(view, bs.ClusterLocation(n) + q, off, b);
            var fs := FsOf(bs, view);
            ViewOk(bs, view') && FsOf(bs, view') == fs.Store(n, q * bs.sectorSize + off, b)
  {
    hide FatAt, DataAt;
    var s := bs.ClusterLocation(n) + q;
    var view' := Written(view, s, off, b);
    WrittenOk(bs, view, s, off, b);
    bs.ClusterInDataArea(n);
    var fs, fs' := FsOf(bs, view), FsOf(bs, view');
    var d := Splice(fs.data[n], q * bs.sectorSize + off, b);
    forall m | 0 <= m < |fs.fat| ensures fs'.fat[m] == fs.fat[m] && fs'.data[m] == fs.data[n := d][m] {
      if bs.IsClusterAvailable(m) {
        FatAfterDataWrite(bs, view, s, off, b, m);
        DataAfterDataWrite(bs, view, n, q, off, b, m);
      }
    }
  }

  /** Bytes `i..j` of one sector of a cluster. */
  datatype Piece = Piece(sector: nat, i: nat, j: nat) {
    function Begin(size: nat): nat {
      sector * size + i
    }

    function End(size: nat): nat {
      sector * size + j
    }

    lemma Grows(size: nat)
      requires i < j
      ensures End(size) == Begin(size) + (j - i)
    {
    }
  }

  /** `ps` cuts the bytes `start..end` of a cluster at sector boundaries, in order and without gaps. */
  ghost predicate Tiles(ps: seq<Piece>, start: nat, end: nat, size: nat) {
    && (forall k :: 0 <= k < |ps| ==> ps[k].i < ps[k].j <= size && ps[k].Begin(size) == PieceStart(ps, k, start, size))
    && PieceStart(ps, |ps|, start, size) == end
  }

  /** Where the piece `k` has to start: at the end of the one before. */
  function PieceStart(ps: seq<Piece>, k: nat, start: nat, size: nat): nat
    requires k <= |ps|
  {
    if k == 0 then start else ps[k - 1].End(size)
  }

  /** BufferedCluster::sector_range: the sectors from that of `start` to that of `end`, those left
      empty filtered out. */
  function SectorRange(start: nat, end: nat, size: nat): (ps: seq<Piece>)
    requires start <= end && size > 0
    ensures Tiles(ps, start, end, size)
  {
    QuotientMonotone(start, end, size);
    SectorRangeTiles(start, end, size, start / size);
    SectorRangeFrom(start, end, size, start / size)
  }

  function SectorRangeFrom(start: nat, end: nat, size: nat, q: nat): seq<Piece>
    requires size > 0
    decreases end / size - q
  {
    if end / size < q then [] else
    var i := if q == start / size then start % size else 0;
    var j := if q == end / size then end % size else size;
    (if i < j then [Piece(q, i, j)] else []) + SectorRangeFrom(start, end, size, q + 1)
  }

  /** Where the bytes in and after sector `q` begin. */
  function From(start: nat, size: nat, q: nat): nat
    requires size > 0
  {
    if q == start / size then start else q * size
  }

  /** The part of `start..end` in sector `q` ends where the rest begins. */
  lemma {:induction false} PieceBounds(start: nat, end: nat, size: nat, q: nat)
    requires start <= end && size > 0 && start / size <= q <= end / size
    ensures var i := if q == start / size then start % size else 0;
            var j := if q == end / size then end % size else size;
            var next := if q == end / size then end else From(start, size, q + 1);
            && Piece(q, i, j).Begin(size) == From(start, size, q)
            && (i < j ==> j <= size && Piece(q, i, j).End(size) == next)
            && (j <= i ==> From(start, size, q) == next)
  {
    SameQuotient(start, size, start / size);
    SameQuotient(end, size, end / size);
    NextMultiple(q, q + 1, size);
    assert (q + 1) * size == q * size + size;
  }

  lemma {:induction false} SectorRangeTiles(start: nat, end: nat, size: nat, q: nat)
    requires start <= end && size > 0 && start / size <= q <= end / size
    ensures Tiles(SectorRangeFrom(start, end, size, q), From(start, size, q), end, size)
    decreases end / size - q
  {
    PieceBounds(start, end, size, q);
    hide From, Piece.Begin, Piece.End;
    var i := if q == start / size then start % size else 0;
    var j := if q == end / size then end % size else size;
    var next := if q == end / size then end else From(start, size, q + 1);
    var rest := SectorRangeFrom(start, end, size, q + 1);
    assert Tiles(rest, next, end, size) by {
      if q < end / size {
        SectorRangeTiles(start, end, size, q + 1);
      } else {
        assert rest == [];
      }
    }
    hide Tiles;
    if i < j {
      PrependTiles(Piece(q, i, j), rest, From(start, size, q), end, size);
    } else {
      assert [] + rest == rest;
    }
  }

  lemma {:induction false} PrependTiles(p: Piece, ps: seq<Piece>, start: nat, end: nat, size: nat)
    requires p.i < p.j <= size && p.Begin(size) == start
    requires Tiles(ps, p.End(size), end, size)
    ensures Tiles([p] + ps, start, end, size)
  {
    hide Piece.Begin, Piece.End;
    assert forall k :: 0 < k <= |ps| + 1 ==> PieceStart([p] + ps, k, start, size) == PieceStart(ps, k - 1, p.End(size), size);
  }

  lemma {:induction false} QuotientMonotone(a: nat, b: nat, d: nat)
    requires a <= b && d > 0
    ensures a / d <= b / d
  {
    SameQuotient(a, d, a / d);
    SameQuotient(b, d, b / d);
    if b / d < a / d {
      NextMultiple(b / d, a / d, d);
    }
  }

  /** Every piece lies within `start..end`. */
  lemma {:induction false} TilesInside(ps: seq<Piece>, k: nat, start: nat, end: nat, size: nat)
    requires Tiles(ps, start, end, size) && k <= |ps|
    ensures start <= PieceStart(ps, k, start, size) <= end
  {
    hide Piece.Begin, Piece.End;
    TilesIncrease(ps, 0, k, start, end, size);
    TilesIncrease(ps, k, |ps|, start, end, size);
  }

  lemma {:induction false} TilesIncrease(ps: seq<Piece>, k: nat, m: nat, start: nat, end: nat, size: nat)
    requires Tiles(ps, start, end, size) && k <= m <= |ps|
    ensures PieceStart(ps, k, start, size) <= PieceStart(ps, m, start, size)
    decreases m - k
  {
    hide Piece.Begin, Piece.End;
    if k < m {
      ps[k].Grows(size);
      TilesIncrease(ps, k + 1, m, start, end, size);
    }
  }

  /** A piece of a cluster is the same stretch of its flat bytes. */
  lemma {:induction false} PieceBytes(bs: BootSector, view: Disk, n: nat, p: Piece)
    requires ViewOk(bs, view) && bs.IsClusterAvailable(n)
    requires p.i < p.j <= bs.sectorSize && p.End(bs.sectorSize) <= bs.ClusterBytes()
    ensures p.sector < bs.clusterSize && bs.ClusterLocation(n) + p.sector < |view|
    ensures |view[bs.ClusterLocation(n) + p.sector]| == bs.sectorSize
    ensures view[bs.ClusterLocation(n) + p.sector][p.i..p.j] == DataAt(bs, view, n)[p.Begin(bs.sectorSize)..p.End(bs.sectorSize)]
  {
    hide DataAt, ByteAt;
    PieceLocation(bs, view, n, p);
    var d, at := DataAt(bs, view, n), p.Begin(bs.sectorSize);
    var b := view[bs.ClusterLocation(n) + p.sector];
    forall k | p.i <= k < p.j ensures at + (k - p.i) < |d| && b[k] == d[at + (k - p.i)] {
      PieceByte(bs, view, n, p, k);
    }
    SameSlices(b, p.i, p.j, d, at);
  }

  lemma {:induction false} SameSlices(b: seq<byte>, i: nat, j: nat, d: seq<byte>, at: nat)
    requires i <= j <= |b| && at + (j - i) <= |d| && forall k :: i <= k < j ==> b[k] == d[at + (k - i)]
    ensures b[i..j] == d[at..at + (j - i)]
  {
    forall k | 0 <= k < j - i ensures b[i..j][k] == d[at..at + (j - i)][k] {
      assert b[i + k] == d[at + (i + k - i)];
    }
  }

  /** The sector of a piece lies on the volume. */
  lemma {:induction false} PieceLocation(bs: BootSector, view: Disk, n: nat, p: Piece)
    requires ViewOk(bs, view) && bs.IsClusterAvailable(n)
    requires p.i < p.j <= bs.sectorSize && p.End(bs.sectorSize) <= bs.ClusterBytes()
    ensures p.sector < bs.clusterSize && bs.ClusterLocation(n) + p.sector < |view|
    ensures |view[bs.ClusterLocation(n) + p.sector]| == bs.sectorSize
  {
    PieceSector(bs, p);
    bs.ClusterInDataArea(n);
    hide BootSector.ClusterLocation, BootSector.ClusterCount, BootSector.DataAreaStart;
  }

  lemma {:induction false} PieceByte(bs: BootSector, view: Disk, n: nat, p: Piece, k: nat)
    requires ViewOk(bs, view) && bs.IsClusterAvailable(n)
    requires p.i <= k < p.j <= bs.sectorSize && p.End(bs.sectorSize) <= bs.ClusterBytes()
    ensures bs.ClusterLocation(n) + p.sector < |view| && k < |view[bs.ClusterLocation(n) + p.sector]|
    ensures p.Begin(bs.sectorSize) + (k - p.i) < bs.ClusterBytes()
    ensures view[bs.ClusterLocation(n) + p.sector][k] == DataAt(bs, view, n)[p.Begin(bs.sectorSize) + (k - p.i)]
  {
    PieceLocation(bs, view, n, p);
    SameQuotient(p.Begin(bs.sectorSize) + (k - p.i), bs.sectorSize, p.sector);
    hide BootSector.ClusterLocation, BootSector.ClusterCount, BootSector.DataAreaStart;
  }

  lemma {:induction false} PieceSector(bs: BootSector, p: Piece)
    requires p.i < p.j <= bs.sectorSize && p.End(bs.sectorSize) <= bs.ClusterBytes()
    ensures p.sector < bs.clusterSize
  {
    SameQuotient(p.Begin(bs.sectorSize), bs.sectorSize, p.sector);
    QuotientBelow(p.Begin(bs.sectorSize), bs.sectorSize, bs.clusterSize);
  }

  lemma {:induction false} SliceSlice<T>(d: seq<T>, i: nat, j: nat, k: nat)
    requires i <= j <= k <= |d|
    ensures d[i..j] + d[j..k] == d[i..k]
  {
  }

  lemma {:induction false} StoreNothing(fs: Fs, n: nat, off: nat, b: seq<byte>)
    requires n < |fs.data| && off <= |fs.data[n]|
    ensures fs.Store(n, off, b[..0]) == fs
  {
    assert Splice(fs.data[n], off, b[..0]) == fs.data[n];
  }

  /** Two adjacent writes are one. */
  lemma {:induction false} StoreMore(fs: Fs, n: nat, off: nat, b: seq<byte>, i: nat, j: nat)
    requires n < |fs.data| && off + |b| <= |fs.data[n]| && i <= j <= |b|
    ensures |fs.Store(n, off, b[..i]).data| == |fs.data| && |fs.Store(n, off, b[..i]).data[n]| == |fs.data[n]|
    ensures fs.Store(n, off, b[..i]).Store(n, off + i, b[i..j]) == fs.Store(n, off, b[..j])
  {
    assert Splice(Splice(fs.data[n], off, b[..i]), off + i, b[i..j]) == Splice(fs.data[n], off, b[..j]);
  }

  lemma {:induction false} ViewSizes(c: Cache, size: nat)
    requires Sound(c, size)
    ensures DiskOk(View(c), size) && |View(c)| == |c.disk|
  {
    forall s | 0 <= s < |c.disk| ensures |View(c)[s]| == size {
      if b :| Holds(Buffers(c), s, b) {
        assert |ViewAt(c.disk, Buffers(c), s)| == size;
      }
    }
  }

  /** The volume of a mounted file system. No sector is lent between two operations. */
  class Root {
    const bs: BootSector
    const volume: BufferedVolume

    ghost predicate Valid()
      reads this, volume
    {
      && volume.Valid()
      && volume.lent == []
      && Settled(volume.State())
      && WithinDisk(volume.State())
      && volume.size == bs.sectorSize
      && bs.Consistent()
      && bs.totalSectors <= |volume.disk|
    }

    /** The sectors as the cache shows them. */
    ghost function Sectors(): (view: Disk)
      requires Valid()
      reads this, volume
      ensures ViewOk(bs, view) && |view| == |volume.disk|
    {
      ViewSizes(volume.State(), volume.size);
      View(volume.State())
    }

    ghost function State(): (fs: Fs)
      requires Valid()
      reads this, volume
    {
      FsOf(bs, Sectors())
    }

    constructor (bs: BootSector, disk: Disk)
      requires bs.Consistent() && bs.totalSectors <= |disk| && DiskOk(disk, bs.sectorSize)
      ensures Valid() && fresh(volume) && this.bs == bs && Sectors() == disk
    {
      this.bs := bs;
      this.volume := new BufferedVolume(bs.sectorSize, disk);
    }

    lemma Shape(n: nat)
      requires Valid() && bs.IsClusterAvailable(n)
      ensures bs.sectorSize > 0 && n < |State().fat| == |State().data| && |State().data[n]| == bs.ClusterBytes()
    {
    }

    lemma Shapes()
      requires Valid()
      ensures bs.Consistent() && Shaped(State(), bs.ClusterBytes()) && |State().fat| == bs.ClusterCount() + 2
    {
    }

    /** Bytes `i..j` of a sector, through a reference that is dropped at once. */
    method ReadSector(s: nat, i: nat, j: nat) returns (b: seq<byte>)
      requires Valid() && s < |volume.disk| && i <= j <= bs.sectorSize
      modifies volume
      ensures Valid() && Sectors() == old(Sectors()) && b == Sectors()[s][i..j]
    {
      hide Sound, View, ViewOk, DiskOk, Initialized, Settled, WithinDisk, Loads, Candidate;
      var r := volume.Sector(s, WORKS);
      LookedOne(old(volume.State()), s, WORKS, volume.size);
      LentBytes(volume.State(), 0, volume.size);
      b := volume.lent[0].bytes[i..j];
      volume.Release(0);
    }

    /** Replaces bytes of a sector, through a reference that is dropped at once. */
    method WriteSector(s: nat, off: nat, b: seq<byte>)
      requires Valid() && s < |volume.disk| && off + |b| <= bs.sectorSize
      modifies volume
      ensures Valid() && |old(Sectors())[s]| == bs.sectorSize && Sectors() == Written(old(Sectors()), s, off, b)
    {
      hide Sound, View, ViewOk, Initialized, Settled, WithinDisk, Loads, Candidate;
      var r := volume.Sector(s, WORKS);
      LookedOne(old(volume.State()), s, WORKS, volume.size);
      LentBytes(volume.State(), 0, volume.size);
      StoredChangesView(volume.State(), 0, off, b, volume.size);
      volume.Store(0, off, b);
      volume.Release(0);
    }

    /** Root::commit: afterwards the disk itself holds the file system. */
    method Commit(io: nat -> Io) returns (r: Result<(), VolumeError>)
      requires Valid()
      modifies volume
      ensures Valid() && Sectors() == old(Sectors()) && State() == old(State())
      ensures r.Ok? ==> volume.disk == Sectors()
      ensures (forall j: nat :: j < |old(volume.cached)| ==> io(j).readOk && io(j).writeOk) ==> r.Ok?
    {
      hide Sound, ViewOk, DiskOk, Settled;
      assert forall j: nat :: j < |volume.cached| ==> volume.cached[j] in volume.cached;
      r := volume.Commit(io);
    }

    /** BufferedFat::read. */
    method ReadFat(n: nat) returns (e: FatEntry)
      requires Valid() && bs.IsClusterAvailable(n)
      modifies volume
      ensures Valid() && State() == old(State()) && e == State().fat[n] && e.Encodable()
      ensures Means(SlotBytes(bs, old(Sectors()), n), e)
    {
      SlotMeans(bs, Sectors(), n, State().fat[n]);
      bs.FatSlotInFirstFat(n);
      hide BootSector.DataAreaStart, BootSector.ClusterCount, BootSector.FatEntrySector, BootSector.FatEntryOffset,
        View, volume.Valid, Means;
      var off := bs.FatEntryOffset(n);
      var b := ReadSector(bs.FatEntrySector(n), off, off + 4);
      e := Decode(U32FromLe(b));
    }

    /** BufferedFat::write. */
    method WriteFat(n: nat, e: FatEntry)
      requires Valid() && bs.IsClusterAvailable(n) && e.Encodable()
      modifies volume
      ensures Valid() && State() == old(State()).Link(n, e)
      ensures Means(SlotBytes(bs, Sectors(), n), e) && (e.Unused? ==> SlotBytes(bs, Sectors(), n) == [0, 0, 0, 0])
    {
      bs.FatSlotInFirstFat(n);
      hide BootSector.DataAreaStart, BootSector.ClusterCount, BootSector.FatEntrySector, BootSector.FatEntryOffset,
        View, volume.Valid, Encode, Means, U32ToLe;
      EncodeMeans(e);
      WriteSector(bs.FatEntrySector(n), bs.FatEntryOffset(n), U32ToLe(Encode(e)));
      FsAfterFatWrite(bs, old(Sectors()), n, e);
      WrittenSlot(old(Sectors())[bs.FatEntrySector(n)], bs.FatEntryOffset(n), U32ToLe(Encode(e)));
    }

    /** A read within one sector of a cluster. */
    method ReadPiece(n: nat, p: Piece) returns (b: seq<byte>)
      requires Valid() && bs.IsClusterAvailable(n)
      requires p.i < p.j <= bs.sectorSize && p.Begin(bs.sectorSize) <= p.End(bs.sectorSize) <= bs.ClusterBytes()
      modifies volume
      ensures Valid() && State() == old(State()) && |State().data[n]| == bs.ClusterBytes()
      ensures b == State().data[n][p.Begin(bs.sectorSize)..p.End(bs.sectorSize)]
    {
      hide View, volume.Valid;
      PieceBytes(bs, Sectors(), n, p);
      b := ReadSector(bs.ClusterLocation(n) + p.sector, p.i, p.j);
    }

    /** BufferedCluster::read. */
    method ReadCluster(n: nat, offset: nat, len: nat) returns (b: seq<byte>)
      requires Valid() && bs.IsClusterAvailable(n) && offset + len <= bs.ClusterBytes()
      modifies volume
      ensures Valid() && State() == old(State()) && |State().data[n]| == bs.ClusterBytes()
      ensures b == State().data[n][offset..offset + len]
    {
      var size := bs.sectorSize;
      hide Valid, State, Piece.Begin, Piece.End, BootSector.Consistent, BootSector.ClusterBytes;
      Shape(n);
      ghost var d := State().data[n];
      var ps := SectorRange(offset, offset + len, size);
      b := [];
      for k := 0 to |ps|
        invariant Valid() && State() == old(State())
        invariant offset <= PieceStart(ps, k, offset, size) <= offset + len
        invariant b == d[offset..PieceStart(ps, k, offset, size)]
      {
        TilesInside(ps, k + 1, offset, offset + len, size);
        var p := ps[k];
        p.Grows(size);
        var t := ReadPiece(n, p);
        b := b + t;
        SliceSlice(d, offset, p.Begin(size), p.End(size));
      }
    }

    /** A write within one sector of a cluster. */
    method WritePiece(n: nat, p: Piece, b: seq<byte>)
      requires Valid() && bs.IsClusterAvailable(n)
      requires |b| > 0 && p.i + |b| == p.j <= bs.sectorSize && p.End(bs.sectorSize) <= bs.ClusterBytes()
      modifies volume
      ensures Valid() && |old(State()).data[n]| == bs.ClusterBytes()
      ensures State() == old(State()).Store(n, p.Begin(bs.sectorSize), b)
    {
      hide View, volume.Valid;
      PieceBytes(bs, Sectors(), n, p);
      FsAfterDataWrite(bs, Sectors(), n, p.sector, p.i, b);
      WriteSector(bs.ClusterLocation(n) + p.sector, p.i, b);
    }

    /** BufferedCluster::write. */
    method WriteCluster(n: nat, offset: nat, b: seq<byte>)
      requires Valid() && bs.IsClusterAvailable(n) && offset + |b| <= bs.ClusterBytes()
      modifies volume
      ensures Valid() && |old(State()).data[n]| == bs.ClusterBytes()
      ensures State() == old(State()).Store(n, offset, b)
    {
      var size := bs.sectorSize;
      hide Valid, State, Fs.Store, Piece.Begin, Piece.End, BootSector.Consistent, BootSector.ClusterBytes;
      ghost var fs := State();
      Shape(n);
      StoreNothing(fs, n, offset, b);
      var ps := SectorRange(offset, offset + |b|, size);
      for k := 0 to |ps|
        invariant Valid()
        invariant offset <= PieceStart(ps, k, offset, size) <= offset + |b|
        invariant State() == fs.Store(n, offset, b[..PieceStart(ps, k, offset, size) - offset])
      {
        TilesInside(ps, k + 1, offset, offset + |b|, size);
        var p := ps[k];
        p.Grows(size);
        var from, to := p.Begin(size) - offset, p.End(size) - offset;
        StoreMore(fs, n, offset, b, from, to);
        WritePiece(n, p, b[from..to]);
      }
      assert b[..|b|] == b;
    }
  }

  lemma {:induction false} WrittenSlot(s: seq<byte>, off: nat, b: seq<byte>)
    requires off + |b| <= |s|
    ensures Splice(s, off, b)[off..off + |b|] == b
  {
  }

  lemma {:induction false} LentBytes(c: Cache, i: nat, size: nat)
    requires Sound(c, size) && i < |c.lent|
    ensures c.lent[i].sector < |c.disk| && View(c)[c.lent[i].sector] == c.lent[i].bytes && |c.lent[i].bytes| == size
  {
    assert c.lent[i] in c.lent && c.lent[i] in Buffers(c);
    FlushedBytes(c, c.lent[i], size);
  }
}
