/** What happens to a file on a volume without free clusters. */
module FullVolumes {
  import opened Bytes
  import opened FatEntries
  import opened BootSectors
  import opened LowLevel
  import opened Chains
  import opened FileContents
  import opened F = Files
  import opened FatTable
  import opened LongNames
  import opened Listings
  import opened Insertions
  import opened DirectorySlots
  import R = Removals
  import Dir = Directories
  import D = DirEntries

  /** Two clusters of one sector. */
  const TINY: BootSector := BootSector(512, 1, 1, 1, 4, 1, 2)

  /** Both are in use: cluster 2 by the root directory, cluster 3 by a file. */
  const TAKEN: Fat := [Reserved, Reserved, UsedEoc, UsedEoc]

  method TakenVolume() returns (root: Root)
    ensures fresh(root) && fresh(root.volume) && root.Valid() && root.bs == TINY && root.State().fat == TAKEN
  {
    hide Root.State, Root.Valid, BootSector.Consistent, BootSector.ClusterCount, BootSector.ClusterBytes;
    TinyShape();
    root := BlankVolume(TINY, 4);
    root.WriteFat(2, UsedEoc);
    root.WriteFat(3, UsedEoc);
  }

  /** A volume of blank sectors. */
  method BlankVolume(bs: BootSector, sectors: nat) returns (root: Root)
    requires bs.Consistent() && bs.totalSectors <= sectors
    ensures fresh(root) && fresh(root.volume) && root.Valid() && root.bs == bs
    ensures |root.State().fat| == bs.ClusterCount() + 2 && root.State().fat[0] == root.State().fat[1] == Reserved
  {
    root := new Root(bs, seq(sectors, _ => seq(bs.sectorSize, _ => 0)));
    root.Shapes();
  }

  lemma TinyShape()
    ensures TINY.Consistent() && TINY.ClusterCount() == 2 && TINY.ClusterBytes() == 512
    ensures TINY.IsClusterAvailable(2) && TINY.IsClusterAvailable(3)
  {
  }

  lemma {:induction false} NothingFree()
    ensures FreeCount(TAKEN) == 0 && FreeBeside(TAKEN, [3]) == 0 && !Loops(TAKEN, [3])
  {
    assert UnusedClusters(TAKEN) == {};
  }

  const ENTRY: D.SfnEntry := D.SfnEntry(seq(11, _ => 65), 0, 0, 0, 0, 0, 0, 0, 0, 0, 3, 1)

  /** A file of one byte on the full volume. */
  method TakenFile() returns (file: File)
    ensures fresh(file) && fresh(file.root) && fresh(file.root.volume)
    ensures file.Valid() && file.Owns([3]) && !file.entry.IsDirectory() && file.Size() == 512
    ensures file.entry == ENTRY && file.root.State().fat == TAKEN
  {
    hide Root.State, Root.Valid;
    var root := TakenVolume();
    TinyShape();
    root.Shapes();
    file := new File(root, Slot(2, 0), ENTRY);
    assert !file.entry.IsDirectory() by { NoDirectory(); }
    assert IsClosed(TAKEN, [3]);
  }

  lemma NoDirectory()
    ensures !ENTRY.IsDirectory()
  {
  }

  /** Overwriting it with 513 bytes, one more than its cluster holds, empties it. */
  method OverwriteEmpties() returns (before: seq<byte>, after: seq<byte>)
    ensures |before| == 1 && after == []
  {
    hide Root.State, Root.Valid, FreeBeside, Loops, IsPath, Stream;
    var file := TakenFile();
    TinyShape();
    NothingFree();
    assert file.entry.Cluster() == Some(3);
    var reader := new FileReader(file);
    before := reader.ReadToEnd();
    OneByte(file.root.State(), 512);
    var buf: seq<byte> := seq(513, _ => 0);
    ConcatOne(buf);
    var r, chain := Rewrite(file, [3], false, [buf]);
    reader := new FileReader(file);
    after := reader.ReadToEnd();
  }

  lemma ConcatOne(buf: seq<byte>)
    ensures Concat([buf]) == buf
  {
    assert [buf][..0] == [];
  }

  lemma {:induction false} OneByte(fs: Fs, size: nat)
    requires Readable(fs, size) && CursorOk(fs, Some(Position(3, 0)))
    ensures |Stream(fs, size, Some(Position(3, 0)), 1)| == 1
  {
    StreamBegins(fs, size, Position(3, 0), 1);
  }

  // ---- shrinking and appending ----

  /** Three clusters of one sector: the root directory, and a file of two clusters. */
  const SMALL: BootSector := BootSector(512, 1, 1, 1, 5, 1, 2)
  const LINKED: Fat := [Reserved, Reserved, UsedEoc, UsedChained(4), UsedEoc]
  const TWO_CLUSTERS: D.SfnEntry := D.SfnEntry(seq(11, _ => 65), 0, 0, 0, 0, 0, 0, 0, 0, 0, 3, 1024)

  lemma SmallShape()
    ensures SMALL.Consistent() && SMALL.ClusterCount() == 3 && SMALL.ClusterBytes() == 512
    ensures SMALL.IsClusterAvailable(2) && SMALL.IsClusterAvailable(3) && SMALL.IsClusterAvailable(4)
    ensures !TWO_CLUSTERS.IsDirectory() && TWO_CLUSTERS.Cluster() == Some(3)
  {
  }

  method LinkedVolume() returns (root: Root)
    ensures fresh(root) && fresh(root.volume) && root.Valid() && root.bs == SMALL && root.State().fat == LINKED
  {
    hide Root.State, Root.Valid, Root.Sectors, BootSector.Consistent, BootSector.ClusterCount, BootSector.ClusterBytes, Means,
      SlotBytes;
    SmallShape();
    root := BlankVolume(SMALL, 5);
    root.WriteFat(2, UsedEoc);
    root.WriteFat(3, UsedChained(4));
    root.WriteFat(4, UsedEoc);
  }

  method LinkedFile() returns (file: File)
    ensures fresh(file) && fresh(file.root) && fresh(file.root.volume)
    ensures file.Valid() && file.Owns([3, 4]) && !file.entry.IsDirectory() && file.Size() == 512
    ensures file.entry == TWO_CLUSTERS && file.root.State().fat == LINKED
  {
    hide Root.State, Root.Valid;
    var root := LinkedVolume();
    SmallShape();
    root.Shapes();
    file := new File(root, Slot(2, 0), TWO_CLUSTERS);
    assert IsClosed(LINKED, [3, 4]);
  }

  /** Keeping the first of the two clusters marks both unused. */
  lemma {:induction false} ShrunkTable()
    ensures Cut(LINKED, 3) == [Reserved, Reserved, UsedEoc, Unused, Unused] && Binds(Cut(LINKED, 3), [3])
    ensures !Loops(LINKED, [3, 4])
  {
    var fat := LINKED[3 := Unused];
    assert fat[4] == UsedEoc && Released(fat, 4) == fat[4 := Unused];
  }

  lemma {:induction false} ShrunkKeeps(fat: Fat, chain: seq<nat>)
    requires F.Keeps(LINKED, fat, [3, 4], chain, 512, 512, false)
    ensures chain == [3] && fat == Cut(LINKED, 3)
  {
    hide Cut;
    assert |chain| < 2;
    assert [3, 4][..1] == [3];
  }

  lemma {:induction false} OneByteOver(b: seq<byte>, x: byte)
    requires |b| == 512
    ensures Remains(b + [x], 1, 512, true) == [x] + b[1..]
    ensures Remains(b, 2, 512, false) == b
  {
    var w := b + [x];
    assert w[..0] == [] && w[512..] == [x] && w[1..512] == b[1..];
  }

  /** Shrinks the file to one cluster of bytes. */
  method Shrink(file: File, buf: seq<byte>) returns (ghost chain: seq<nat>)
    requires file.Valid() && file.Owns([3, 4]) && !file.entry.IsDirectory() && file.Size() == 512 && |buf| == 512
    requires file.entry == TWO_CLUSTERS && file.root.State().fat == LINKED
    modifies file`entry, file.root.volume
    ensures file.Valid() && !file.entry.IsDirectory() && file.Owns(chain) && chain == [3]
    ensures file.entry.Cluster() == Some(3) && IsCluster(file.root.State().fat, 3) && file.Content() == buf
    ensures file.root.State().fat == Cut(LINKED, 3)
  {
    hide Root.State, Root.Valid, FreeBeside, Loops, IsPath, Stream, Remains, F.Keeps, Cut;
    SmallShape();
    ConcatOne(buf);
    ShrunkTable();
    OneByteOver(buf, 0);
    var r;
    r, chain := Rewrite(file, [3, 4], false, [buf]);
    ShrunkKeeps(file.root.State().fat, chain);
  }

  /** Overwritten with one cluster of bytes the file keeps cluster 3, marked unused, and no lower one is. What
      is then appended goes over the first byte of it. */
  method AppendOverwrites() returns (middle: seq<byte>, after: seq<byte>)
    ensures |middle| == 512 && after == [9] + middle[1..]
  {
    hide Root.State, Root.Valid, FreeBeside, IsPath, Stream, Remains, F.Keeps, Cut;
    var file := LinkedFile();
    ghost var chain := Shrink(file, seq(512, _ => 7));
    var reader := new FileReader(file);
    middle := reader.ReadToEnd();
    ConcatOne([9]);
    ShrunkTable();
    OneByteOver(middle, 9);
    var r;
    r, chain := Rewrite(file, chain, true, [[9]]);
    reader := new FileReader(file);
    after := reader.ReadToEnd();
  }

  // ---- renaming ----

  /** A name of 200 small letters. */
  const LONG: D.Name := seq(200, _ => 0x61)

  /** It takes 16 long entries and a short one. */
  lemma {:induction false} LongLength(sfn: D.SfnEntry)
    ensures LfnSequence(LONG, sfn).Some? && |LfnSequence(LONG, sfn).value| == 17 && ReadsBack(LONG) && !IsDots(LONG)
  {
    hide Padded, Parts, D.SfnEntry.Checksum, GenerateName;
    NotShort();
    var e := sfn.(name := GenerateName(LONG));
    assert |Padded(LONG)| == 208;
    PartsJoined(Padded(LONG), 16, e.Checksum());
  }

  lemma {:induction false} NotShort()
    ensures !IsShortName(LONG)
  {
    NoDot(LONG);
    assert Base(LONG) == LONG;
  }

  lemma {:induction false} NoDot(n: D.Name)
    requires forall i :: 0 <= i < |n| ==> n[i] != DOT
    ensures FindDot(n) == |n|
  {
    if n != [] {
      NoDot(n[1..]);
    }
  }

  /** The root directory of the full volume with one file. */
  method OneFile() returns (root: Root)
    ensures fresh(root) && fresh(root.volume) && Dir.IsDir(root, [2])
    ensures |Dir.EntriesOf(root, [2])| == 16 && Dir.Places(root, [2]) == 16 && root.bs == TINY
    ensures Dir.EntriesOf(root, [2])[0] == D.Sfn(ENTRY) && Dir.EntriesOf(root, [2])[1] == D.UnusedTerminal
  {
    hide Root.State, Root.Valid, D.Encode, D.Decode, FreeCount, Slots;
    root := TakenVolume();
    TinyShape();
    root.Shapes();
    assert IsChain(TAKEN, [2]);
    SlotsCount(root.State(), 512, [2]);
    NothingFree();
    D.EntryRoundTrip(D.UnusedTerminal);
    EntryReads();
    NoSlots(root.State().data);
    Dir.WriteEntry(root, Slot(2, 0), D.Sfn(ENTRY), [2], 0, 0);
    Dir.WriteEntry(root, Slot(2, 1), D.UnusedTerminal, [2], 0, 1);
  }

  lemma NoSlots(data: seq<seq<byte>>)
    ensures [2][..0] == [] && Slots(data, []) == []
  {
  }

  lemma EntryReads()
    ensures D.Decode(D.Encode(D.Sfn(ENTRY))) == D.Sfn(ENTRY)
  {
    D.EntryRoundTrip(D.Sfn(ENTRY));
  }

  lemma {:induction false} EntryShown()
    ensures !ENTRY.IsVolumeId() && !IsDots(ShortName(ENTRY)) && ShortName(ENTRY) != LONG
  {
    assert ENTRY.name[..8][0] == 65;
    assert ShortName(ENTRY)[0] == 65;
  }

  /** It is the only file listed, and with its entry erased there is none. */
  lemma {:induction false} OneListed(s: Entries) returns (l: Listed)
    requires |s| == 16 && s[0] == D.Sfn(ENTRY) && s[1] == D.UnusedTerminal
    ensures Dir.WellFormed(s) && Files(s) == Some([l]) && l == Listed(ShortName(ENTRY), ENTRY, 0, 0)
    ensures Files(Erased(s, 0, 1)) == Some([]) && Room(Erased(s, 0, 1), 17) == (0, 1)
  {
    hide ShortName, Dir.WellFormed;
    EntryShown();
    l := Listed(ShortName(ENTRY), ENTRY, 0, 0);
    Dir.NoLongNames(s, 1);
    ReadsTerminal(s, Init, 1);
    assert [l] + [] == [l];
    var t := Erased(s, 0, 1);
    ReadsTerminal(t, Init, 1);
    assert Search(t, 17, 1, 0, 1) == (0, 1);
  }

  /** Reads the first file of a directory. */
  method First(root: Root, ghost chain: seq<nat>) returns (f: Option<Dir.Found>, ghost l: Listed, ghost m: nat, ghost m': nat)
    requires Dir.IsDir(root, chain) && chain[0] == 2 && Files(Dir.EntriesOf(root, chain)).Some?
    modifies root.volume
    ensures Dir.IsDir(root, chain) && root.State() == old(root.State())
    ensures f.None? <==> Files(Dir.EntriesOf(root, chain)) == Some([])
    ensures f.Some? ==> Files(Dir.EntriesOf(root, chain)).value != [] && l == Files(Dir.EntriesOf(root, chain)).value[0]
                        && Dir.Stands(root, chain, f.value, l, m, m')
  {
    hide Root.State, Root.Valid, IsChain, Slots, List;
    var entries := new Dir.EntryCursor(root, 2, chain);
    f, l, m, m' := Dir.NextFile(entries);
  }

  /** Renames the only file. */
  method RenameOnly(root: Root, f: Dir.Found, ghost l: Listed, ghost m: nat, ghost m': nat) returns (ghost chain: seq<nat>)
    requires Dir.IsDir(root, [2]) && |Dir.EntriesOf(root, [2])| == 16 && Dir.Places(root, [2]) == 16
    requires Dir.EntriesOf(root, [2])[0] == D.Sfn(ENTRY) && Dir.EntriesOf(root, [2])[1] == D.UnusedTerminal
    requires l == Listed(ShortName(ENTRY), ENTRY, 0, 0) && Dir.Stands(root, [2], f, l, m, m')
    modifies root.volume
    ensures Dir.IsDir(root, chain) && chain != [] && chain[0] == 2 && Files(Dir.EntriesOf(root, chain)) == Some([])
  {
    hide Root.State, Root.Valid, IsChain, ShortName, Dir.WellFormed, LfnSequence, Dir.Spare, Slots, List, Room,
      ReadsBack, IsDots, Dir.InsertsAs, Dir.Named, Adds, FreeCount, Erased;
    ghost var s := Dir.EntriesOf(root, [2]);
    ghost var only := OneListed(s);
    assert only in [only];
    LongLength(f.sfn);
    EntryShown();
    OtherName(only);
    var r;
    ghost var more;
    r, chain, more := R.Rename(root, 2, f, LONG, l, [2], m, m');
    Gone(s, Dir.EntriesOf(root, chain), LfnSequence(LONG, f.sfn).value, r.Ok?, more);
  }

  lemma OtherName(l: Listed)
    requires l.name != LONG
    ensures !Dir.Named([l], LONG)
  {
  }

  lemma {:induction false} Gone(s: Entries, t: Entries, es: seq<D.DirEntry>, ok: bool, more: seq<Listed>)
    requires |s| == 16 && s[0] == D.Sfn(ENTRY) && s[1] == D.UnusedTerminal
    requires |es| == 17 && Dir.InsertsAs(Erased(s, 0, 1), t, es, 16, LONG, ok, more)
    ensures Files(t) == Some([])
  {
    hide List, Room, Dir.WellFormed, Jammed, ReadsBack, IsDots, InsertEnd;
    var l := OneListed(s);
    LongLength(ENTRY);
  }

  /** Renaming the file to a name of 17 entries loses it: the directory has 16 and cannot get more. */
  method RenameLoses() returns (before: bool, after: bool)
    ensures before && !after
  {
    hide Root.State, Root.Valid, IsChain, ShortName, Slots, List, Dir.Spare, Dir.Stands, Dir.WellFormed, Erased, Room;
    var root := OneFile();
    ghost var only := OneListed(Dir.EntriesOf(root, [2]));
    var f;
    ghost var l, m, m';
    f, l, m, m' := First(root, [2]);
    before := f.Some?;
    ghost var chain := RenameOnly(root, f.value, l, m, m');
    f, l, m, m' := First(root, chain);
    after := f.Some?;
  }
}
