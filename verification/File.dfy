/** Files, readers and writers, fs/fat.rs. */
module Files {
  import opened Bytes
  import opened FatEntries
  import opened BootSectors
  import opened LowLevel
  import opened Chains
  import opened FileContents
  import opened FatTable
  import opened Remainders
  import D = DirEntries

  /** What a released chain leaves behind. */
  lemma {:induction false} ReleaseFrees(fat: Fat, chain: seq<nat>)
    requires InRange(fat) && IsClosed(fat, chain)
    ensures InRange(Released(fat, chain[0]))
    ensures forall k :: 0 <= k < |fat| ==> Released(fat, chain[0])[k] == if k in chain then Unused else fat[k]
  {
    forall k | 0 <= k < |fat| ensures Released(fat, chain[0])[k] == if k in chain then Unused else fat[k] {
      ReleaseFreesChain(fat, chain, k);
    }
  }

  class File {
    const root: Root
    const slot: Slot
    var entry: D.SfnEntry

    function Size(): nat {
      root.bs.ClusterBytes()
    }

    ghost predicate Valid()
      reads this, root, root.volume
    {
      && root.Valid()
      && Readable(root.State(), Size())
      && SlotOk(root.State(), Size(), slot)
      && entry.Valid()
    }

    /** `chain` holds the clusters of the file, none of which holds its directory entry: a chain, or what an
        earlier writer has left of one. */
    ghost predicate Owns(chain: seq<nat>)
      requires Valid()
      reads this, root, root.volume
    {
      && slot.cluster !in chain
      && match entry.Cluster()
         case None => chain == []
         case Some(c) => IsClosed(root.State().fat, chain) && chain[0] == c
    }

    /** What a reader of the file gets. */
    ghost function Content(): seq<byte>
      requires Valid() && (entry.Cluster().Some? ==> IsCluster(root.State().fat, entry.Cluster().value))
      reads this, root, root.volume
    {
      Stream(root.State(), Size(), Start(), entry.fileSize)
    }

    function Start(): Option<Position>
      reads this
    {
      match entry.Cluster() case None => None case Some(c) => Some(Position(c, 0))
    }

    constructor (root: Root, slot: Slot, entry: D.SfnEntry)
      ensures this.root == root && this.slot == slot && this.entry == entry
    {
      this.root := root;
      this.slot := slot;
      this.entry := entry;
    }

    method WriteBack()
      requires Valid()
      modifies this`entry, root.volume
      ensures Valid() && entry == old(entry).MarkArchive() && entry.Keeps(old(entry))
      ensures root.State() == old(root.State()).Store(slot.cluster, slot.Begin(), D.Encode(D.Sfn(entry)))
    {
      hide Root.Valid, Root.State, BootSector.Consistent, BootSector.ClusterCount, BootSector.ClusterBytes, D.Encode;
      root.Shapes();
      D.MarkArchiveKeeps(entry);
      entry := entry.MarkArchive();
      root.WriteCluster(slot.cluster, slot.Begin(), D.Encode(D.Sfn(entry)));
    }

    /** Sizes above 32 bits are a panic of the original. */
    method SetFileSize(size: nat)
      requires Valid() && size < 0x1_0000_0000
      modifies this`entry, root.volume
      ensures Valid() && entry == old(entry).(fileSize := size).MarkArchive() && entry.Keeps(old(entry))
      ensures root.State() == old(root.State()).Store(slot.cluster, slot.Begin(), D.Encode(D.Sfn(entry)))
    {
      entry := entry.(fileSize := size);
      WriteBack();
    }

    /** The first cluster, allocated and recorded in the entry if there is none. */
    method PrepareCluster(ghost chain: seq<nat>) returns (r: Result<nat, Error>)
      requires Valid() && Owns(chain)
      modifies this`entry, root.volume
      ensures Valid() && entry.Keeps(old(entry))
      ensures r.Ok? ==>
                && Owns(if chain == [] then [r.value] else chain)
                && entry.Cluster() == Some(r.value) && IsCluster(root.State().fat, r.value)
                && Undisturbed(old(root.State()), root.State(), chain, if chain == [] then [r.value] else chain, slot)
      ensures r.Ok? <==> chain != [] || FreeBeside(old(root.State()).fat, []) > 0
      ensures r.Ok? && chain == [] ==>
                FreeBeside(root.State().fat, [r.value]) == FreeBeside(old(root.State()).fat, []) - 1 && root.State().fat[r.value].UsedEoc?
      ensures chain != [] ==> r.Ok? && r.value == chain[0] && root.State() == old(root.State())
      ensures r.Err? ==> root.State() == old(root.State()) && entry == old(entry)
    {
      hide Root.Valid, Root.State, BootSector.Consistent, BootSector.ClusterCount, BootSector.ClusterBytes, D.Encode,
        FreeBeside;
      root.Shapes();
      match entry.Cluster() {
        case Some(c) =>
          return Ok(c);
        case None =>
          AllocateBeside(root.State().fat);
          r := Allocate(root);
          if r.Ok? {
            SingletonChain(root.State().fat, r.value);
            D.SetClusterRoundTrip(entry, Some(r.value));
            entry := entry.SetCluster(Some(r.value));
            WriteBack();
          }
      }
    }

    /** Gives all clusters back. */
    method ReleaseCluster(ghost chain: seq<nat>)
      requires Valid() && Owns(chain)
      modifies this`entry, root.volume
      ensures Valid() && Owns([]) && entry.Cluster() == None && entry.Keeps(old(entry))
      ensures Undisturbed(old(root.State()), root.State(), chain, [], slot)
      ensures old(entry).Cluster() == None ==> entry == old(entry) && root.State() == old(root.State())
      ensures old(entry).Cluster().Some? ==>
                && entry == old(entry).SetCluster(None).MarkArchive()
                && root.State().data == old(root.State()).Store(slot.cluster, slot.Begin(), D.Encode(D.Sfn(entry))).data
      ensures |root.State().fat| == |old(root.State()).fat|
      ensures forall k :: 0 <= k < |root.State().fat| ==>
                root.State().fat[k] == if k in chain then Unused else old(root.State()).fat[k]
    {
      hide Root.Valid, Root.State, BootSector.Consistent, BootSector.ClusterCount, BootSector.ClusterBytes, D.Encode;
      match entry.Cluster() {
        case Some(c) =>
          entry := entry.SetCluster(None);
          WriteBack();
          ReleaseFrees(root.State().fat, chain);
          Release(root, c);
        case None =>
      }
    }
  }

  class FileReader {
    const root: Root
    var restSize: nat
    var cursor: Option<Position>

    function Size(): nat {
      root.bs.ClusterBytes()
    }

    ghost predicate Valid()
      reads this, root, root.volume
    {
      root.Valid() && Readable(root.State(), Size()) && CursorOk(root.State(), cursor)
    }

    /** What is left to read. */
    ghost function Rest(): seq<byte>
      requires Valid()
      reads this, root, root.volume
    {
      Stream(root.State(), Size(), cursor, restSize)
    }

    /** File::reader; directories have none. */
    constructor (file: File)
      requires file.Valid() && !file.entry.IsDirectory()
      requires file.entry.Cluster().Some? ==> IsCluster(file.root.State().fat, file.entry.Cluster().value)
      ensures root == file.root && Valid() && Rest() == file.Content()
    {
      root := file.root;
      restSize := file.entry.fileSize;
      cursor := file.Start();
    }

    /** The part of the next `limit` bytes that lies in the current cluster. */
    method ReadChunk(limit: nat) returns (t: seq<byte>)
      requires Valid() && cursor.Some? && restSize > 0 && limit > 0
      modifies this, root.volume
      ensures Valid() && root.State() == old(root.State())
      ensures 0 < |t| <= limit && old(Rest()) == t + Rest()
      ensures restSize == old(restSize) - |t|
    {
      hide Root.Valid, Root.State, BootSector.Consistent, BootSector.ClusterCount, BootSector.ClusterBytes, Stream;
      root.Shapes();
      var p := cursor.value;
      var l := Min(limit, Min(restSize, Size() - p.offset));
      StreamSplits(root.State(), Size(), p, restSize, l);
      t := root.ReadCluster(p.cluster, p.offset, l);
      restSize := restSize - l;
      if l == Size() - p.offset {
        var n := Next(root, p.cluster);
        cursor := match n case None => None case Some(c) => Some(Position(c, 0));
      } else {
        cursor := Some(Position(p.cluster, p.offset + l));
      }
      assert cursor == After(root.State(), p, l);
    }

    /** Up to `len` bytes, fewer only at the end. */
    method Read(len: nat) returns (b: seq<byte>)
      requires Valid()
      modifies this, root.volume
      ensures Valid() && root.State() == old(root.State())
      ensures b == old(Rest())[..Min(len, |old(Rest())|)] && Rest() == old(Rest())[|b|..]
      ensures restSize == old(restSize) - |b|
    {
      hide Root.Valid, Root.State, Readable, CursorOk;
      b := [];
      while |b| < len && restSize != 0
        invariant Valid() && root.State() == old(root.State())
        invariant |b| <= len && old(Rest()) == b + Rest()
        invariant restSize == old(restSize) - |b|
        decreases restSize
      {
        if cursor == None {
          break;
        }
        var t := ReadChunk(len - |b|);
        b := b + t;
      }
    }

    method ReadToEnd() returns (b: seq<byte>)
      requires Valid()
      modifies this, root.volume
      ensures Valid() && root.State() == old(root.State()) && b == old(Rest())
    {
      hide Root.Valid, Root.State, Readable, CursorOk, Stream;
      b := [];
      var more := true;
      while more
        invariant Valid() && root.State() == old(root.State())
        invariant old(Rest()) == b + Rest()
        invariant !more ==> Rest() == []
        decreases more, restSize
      {
        var t := Read(4096);
        b := b + t;
        more := 0 < |t|;
      }
    }
  }

  /** The cluster in which the content of a file ends, the bytes in it, and the size of the content. */
  method EndOf(file: File, ghost chain: seq<nat>) returns (c: nat, rest: nat, total: nat, ghost m: nat)
    requires file.Valid() && file.Owns(chain) && chain != []
    requires IsCluster(file.root.State().fat, chain[0])
    modifies file.root.volume
    ensures file.root.Valid() && file.root.State() == old(file.root.State())
    ensures Walked(file.root.State(), file.Size(), chain, m, rest, file.Content()) && rest <= file.Size()
    ensures c == chain[m - 1] && total == |file.Content()| && (rest == 0 ==> m == 1)
  {
    hide Root.Valid, Root.State, BootSector.Consistent, BootSector.ClusterCount, BootSector.ClusterBytes, D.Encode,
      Undisturbed, Prefix, Stream, BytesOf;
    ghost var fs, size, all := file.root.State(), file.Size(), file.Content();
    c, rest, total, m := file.entry.Cluster().value, file.entry.fileSize, 0, 1;
    WalkStarts(fs, size, chain, rest);
    while file.Size() < rest
      invariant file.root.Valid() && file.root.State() == fs
      invariant Walked(fs, size, chain, m, rest, all) && c == chain[m - 1]
      invariant total == |BytesOf(fs.data, chain[..m - 1])| && (rest == 0 ==> m == 1)
      decreases rest
    {
      WalkGoesOn(fs, size, chain, m, rest, all);
      var n := Next(file.root, c);
      match n {
        case Some(n) =>
          total := total + file.Size();
          rest := rest - file.Size();
          c := n;
          m := m + 1;
        case None =>
          rest := file.Size();
      }
    }
    WalkEnds(fs, size, chain, m, rest, all);
    total := total + rest;
  }

  class FileWriter {
    const file: File
    var totalSize: nat
    var cursor: Option<Position>
    ghost var chain: seq<nat>    // the clusters of the file
    ghost var m: nat             // how many of them the writer has come to
    ghost var turns: nat         // how many clusters of bytes it has written before, once it goes round
    ghost var written: seq<byte>

    function Size(): nat {
      file.root.bs.ClusterBytes()
    }

    /** The file keeps its clusters, whatever the writer has done. */
    ghost predicate Attached()
      reads this, file, file.root, file.root.volume
    {
      file.Valid() && file.Owns(chain) && !file.entry.IsDirectory()
    }

    /** The clusters that are left when the writer is dropped. */
    ghost function Kept(): seq<nat>
      reads this
    {
      if cursor.Some? && m <= |chain| then chain[..m] else []
    }

    /** The writer is in its `m`-th cluster, or goes round in the last one. */
    ghost predicate At(p: Position)
      requires file.root.Valid()
      reads this, file, file.root, file.root.volume
    {
      && 1 <= m <= |chain| && p.cluster == chain[m - 1]
      && (|| Writing(file.root.State(), Size(), chain, m, p.offset, written)
          || (m == |chain| && Wrapping(file.root.State(), Size(), chain, turns, p.offset, written)))
    }

    ghost predicate Valid()
      reads this, file, file.root, file.root.volume
    {
      && file.Valid() && !file.entry.IsDirectory()
      && totalSize == |written|
      && match cursor
         case None => file.Owns(chain) && written == []
         case Some(p) => file.slot.cluster !in chain && At(p) && file.entry.Cluster() == Some(chain[0])
    }

    /** The clusters the file has or can get. */
    ghost function Budget(): nat
      requires file.root.Valid()
      reads this, file, file.root, file.root.volume
    {
      |chain| + FreeBeside(file.root.State().fat, chain)
    }

    /** The last cluster is its own successor, or will be. */
    ghost predicate Bound()
      requires file.root.Valid()
      reads this, file, file.root, file.root.volume
    {
      Loops(file.root.State().fat, chain)
    }

    /** Between two writes the writer does not stand at the begin of a cluster other than the first. */
    ghost predicate Rested()
      reads this
    {
      cursor.Some? && cursor.value.offset == 0 ==> m == 1
    }

    /** The writer is not in the last cluster. */
    ghost predicate Inside()
      reads this
    {
      cursor.None? || m < |chain|
    }

    /** What is written fits into the clusters that the file has or can get. */
    lemma WithinBudget()
      requires Valid() && !Bound()
      ensures |written| <= Budget() * Size()
      ensures cursor.Some? && cursor.value.offset == Size() && m == |chain| && FreeBeside(file.root.State().fat, chain) == 0 ==>
                |written| == Budget() * Size()
    {
      hide Root.Valid, Root.State, FreeBeside, Writing;
      if cursor.Some? {
        WritingLength(file.root.State(), Size(), chain, m, cursor.value.offset, written);
        TimesMonotone(m, Budget(), Size());
        assert m * Size() == (m - 1) * Size() + Size();
      }
    }

    /** File::overwriter; directories have none. */
    constructor Overwriter(file: File, ghost chain: seq<nat>)
      requires file.Valid() && file.Owns(chain) && !file.entry.IsDirectory()
      ensures Valid() && this.file == file && this.chain == chain && written == [] && cursor == None
    {
      this.file := file;
      this.chain := chain;
      totalSize, cursor, m, turns, written := 0, None, 0, 0, [];
    }

    /** Goes on to the next cluster of the chain, a new one at its end, or the last one again. */
    method MoveOn() returns (r: Result<(), Error>)
      requires Valid() && cursor.Some? && cursor.value.offset == Size()
      modifies this, file.root.volume
      ensures totalSize == old(totalSize) && file.root.Valid()
      ensures r.Ok? ==> Valid() && written == old(written) && cursor.Some? && cursor.value.offset == 0 < Size()
      ensures r.Err? ==> file.root.State() == old(file.root.State()) && chain == old(chain) && Attached() && cursor == None
      ensures r.Err? <==> !old(Bound()) && old(m) == |old(chain)| && FreeBeside(old(file.root.State()).fat, old(chain)) == 0
      ensures Budget() == old(Budget()) && Bound() == old(Bound()) && (Bound() ==> chain == old(chain)) && old(chain) <= chain
      ensures Inside() && cursor.Some? ==> old(Inside()) && chain == old(chain) && file.root.State().fat == old(file.root.State().fat)
      ensures Undisturbed(old(file.root.State()), file.root.State(), old(chain), chain, file.slot)
    {
      hide Root.Valid, Root.State, BootSector.Consistent, BootSector.ClusterCount, BootSector.ClusterBytes, D.Encode,
        Undisturbed, IsPath, Prefix, FreeBeside, Loops, Writing, Wrapping;
      ghost var fs := file.root.State();
      file.root.Shapes();
      var p := cursor.value;
      ghost var chain', m', turns' := Successor(fs, Size(), chain, m, turns, written, file.slot);
      cursor := None;
      var t := Prepare(file.root, p.cluster);
      if t.Err? {
        return Err(t.error);
      }
      chain, m, turns := chain', m', turns';
      cursor := Some(Position(t.value, 0));
      return Ok(());
    }

    /** Moves to a place with room: stays, goes on to the next cluster, or begins. */
    method Seek() returns (r: Result<(), Error>)
      requires Valid()
      modifies this, file`entry, file.root.volume
      ensures totalSize == old(totalSize) && file.root.Valid()
      ensures r.Ok? ==> Valid() && written == old(written) && cursor.Some? && cursor.value.offset < Size()
      ensures r.Err? ==> Attached() && cursor == None && !old(Bound()) && |old(written)| == Budget() * Size()
      ensures Budget() == old(Budget()) && Bound() == old(Bound()) && (Bound() ==> chain == old(chain)) && old(chain) <= chain
      ensures Inside() && cursor.Some? ==> old(Inside()) && chain == old(chain) && file.root.State().fat == old(file.root.State().fat)
      ensures Undisturbed(old(file.root.State()), file.root.State(), old(chain), chain, file.slot)
    {
      hide Root.Valid, Root.State, BootSector.Consistent, BootSector.ClusterCount, BootSector.ClusterBytes, D.Encode,
        Undisturbed, IsPath, Prefix, FreeBeside, Loops, Writing, Wrapping;
      if !Bound() { WithinBudget(); }
      if cursor.Some? {
        if cursor.value.offset < Size() {
          Here(file.root.State(), Size(), chain, m, turns, cursor.value.offset, written, file.slot);
          r := Ok(());
        } else {
          Here(file.root.State(), Size(), chain, m, turns, cursor.value.offset, written, file.slot);
          r := MoveOn();
        }
      } else {
        r := Begin();
      }
    }

    /** Starts in the first cluster. */
    method Begin() returns (r: Result<(), Error>)
      requires Valid() && cursor.None?
      modifies this, file`entry, file.root.volume
      ensures totalSize == old(totalSize) && file.root.Valid()
      ensures r.Ok? ==> Valid() && written == old(written) && cursor.Some? && cursor.value.offset == 0 < Size()
      ensures r.Err? ==> Attached() && cursor == None && !old(Bound()) && old(Budget()) == 0
      ensures Budget() == old(Budget()) && Bound() == old(Bound()) && (Bound() ==> chain == old(chain)) && old(chain) <= chain
      ensures Inside() && cursor.Some? ==> old(Inside()) && chain == old(chain) && file.root.State().fat == old(file.root.State().fat)
      ensures Undisturbed(old(file.root.State()), file.root.State(), old(chain), chain, file.slot)
    {
      hide Root.Valid, Root.State, BootSector.Consistent, BootSector.ClusterCount, BootSector.ClusterBytes, D.Encode,
        Undisturbed, IsPath, Prefix, FreeBeside, Loops, Writing, Wrapping;
      Untouched(file.root.State(), Size(), chain, file.slot);
      var t := file.PrepareCluster(chain);
      if t.Err? {
        NothingLoops(file.root.State().fat);
        return Err(t.error);
      }
      if chain == [] { NewLoops(file.root.State().fat, t.value); NothingLoops(old(file.root.State()).fat); }
      chain := if chain == [] then [t.value] else chain;
      m := 1;
      WritingStarts(file.root.State(), Size(), chain);
      cursor := Some(Position(t.value, 0));
      r := Ok(());
    }

    /** Puts `b` at the cursor. */
    method Put(b: seq<byte>)
      requires Valid() && cursor.Some? && cursor.value.offset + |b| <= Size()
      modifies this, file.root.volume
      ensures Valid() && chain == old(chain) && m == old(m) && written == old(written) + b && file.root.State().fat == old(file.root.State().fat)
      ensures cursor.Some? && cursor.value.offset == old(cursor).value.offset + |b|
      ensures Budget() == old(Budget()) && Bound() == old(Bound())
      ensures Undisturbed(old(file.root.State()), file.root.State(), old(chain), chain, file.slot)
    {
      hide Root.Valid, Root.State, BootSector.Consistent, BootSector.ClusterCount, BootSector.ClusterBytes, D.Encode,
        Undisturbed, IsPath, Prefix, FreeBeside, Loops, Writing, Wrapping;
      ghost var fs := file.root.State();
      file.root.Shapes();
      var p := cursor.value;
      PutThere(fs, Size(), chain, m, turns, p.offset, written, b, file.slot);
      file.root.WriteCluster(p.cluster, p.offset, b);
      written := written + b;
      totalSize := totalSize + |b|;
      cursor := Some(Position(p.cluster, p.offset + |b|));
    }

    /** One round of `Write`: as much of `b` as there is room for in one cluster. */
    method WriteSome(b: seq<byte>) returns (r: Result<nat, Error>)
      requires Valid() && b != []
      modifies this, file`entry, file.root.volume
      ensures file.root.Valid()
      ensures r.Ok? ==> 0 < r.value <= |b| && Valid() && written == old(written) + b[..r.value] && cursor.Some? && cursor.value.offset > 0
      ensures r.Err? ==> totalSize == old(totalSize) && Attached() && cursor == None && !old(Bound()) && |old(written)| == Budget() * Size()
      ensures Budget() == old(Budget()) && Bound() == old(Bound()) && (Bound() ==> chain == old(chain)) && old(chain) <= chain
      ensures Inside() && cursor.Some? ==> old(Inside()) && chain == old(chain) && file.root.State().fat == old(file.root.State().fat)
      ensures Undisturbed(old(file.root.State()), file.root.State(), old(chain), chain, file.slot)
    {
      hide Root.Valid, Root.State, BootSector.Consistent, BootSector.ClusterCount, BootSector.ClusterBytes, D.Encode,
        Undisturbed, IsPath, Prefix, FreeBeside, Loops, Writing, Wrapping;
      var t := Seek();
      if t.Err? {
        return Err(t.error);
      }
      ghost var fs, was := file.root.State(), chain;
      var l := Min(|b|, Size() - cursor.value.offset);
      Put(b[..l]);
      UndisturbedTwice(old(file.root.State()), fs, file.root.State(), old(chain), was, chain, file.slot);
      return Ok(l);
    }

    /** Appends `buf`. It fails exactly when it does not fit into the clusters the file has or can get and the
        last one does not stand for all that follow. A failure leaves the writer without a cursor. */
    method Write(buf: seq<byte>) returns (r: Result<(), Error>)
      requires Valid()
      modifies this, file`entry, file.root.volume
      ensures file.root.Valid() && totalSize <= old(totalSize) + |buf|
      ensures r.Ok? ==> Valid() && written == old(written) + buf && (old(Rested()) ==> Rested())
      ensures r.Ok? && Inside() ==> old(Inside()) && chain == old(chain) && file.root.State().fat == old(file.root.State().fat)
      ensures r.Err? ==> Attached() && cursor == None
      ensures r.Ok? <==> old(Bound()) || |old(written)| + |buf| <= old(Budget()) * Size()
      ensures Budget() == old(Budget()) && Bound() == old(Bound()) && (Bound() ==> chain == old(chain)) && old(chain) <= chain
      ensures Inside() && cursor.Some? ==> old(Inside()) && chain == old(chain) && file.root.State().fat == old(file.root.State().fat)
      ensures Undisturbed(old(file.root.State()), file.root.State(), old(chain), chain, file.slot)
    {
      hide Root.Valid, Root.State, BootSector.Consistent, BootSector.ClusterCount, BootSector.ClusterBytes, D.Encode,
        Undisturbed, IsPath, Prefix, FreeBeside, Loops, Writing, Wrapping;
      ghost var at := if cursor.Some? then cursor.value.offset else 0;
      if cursor.Some? {
        Here(file.root.State(), Size(), chain, m, turns, cursor.value.offset, written, file.slot);
      } else {
        Untouched(file.root.State(), Size(), chain, file.slot);
      }
      var done := 0;
      while done < |buf|
        invariant done <= |buf|
        invariant Valid() && written == old(written) + buf[..done] && totalSize == old(totalSize) + done
        invariant Budget() == old(Budget()) && Bound() == old(Bound()) && (Bound() ==> chain == old(chain)) && old(chain) <= chain
        invariant Undisturbed(old(file.root.State()), file.root.State(), old(chain), chain, file.slot)
        invariant if done == 0 then cursor == old(cursor) && m == old(m) else cursor.Some? && cursor.value.offset > 0
        invariant Inside() ==> old(Inside()) && chain == old(chain) && file.root.State().fat == old(file.root.State().fat)
      {
        ghost var fs, was := file.root.State(), chain;
        var l := WriteSome(buf[done..]);
        UndisturbedTwice(old(file.root.State()), fs, file.root.State(), old(chain), was, chain, file.slot);
        if l.Err? {
          return Err(l.error);
        }
        assert buf[..done] + buf[done..][..l.value] == buf[..done + l.value];
        done := done + l.value;
      }
      assert buf[..|buf|] == buf;
      if !Bound() { WithinBudget(); }
      return Ok(());
    }

    /** Drop with a cursor: cuts the chain behind it. */
    method DropAt()
      requires Valid() && cursor.Some? && totalSize < 0x1_0000_0000
      modifies file`entry, file.root.volume
      ensures file.Valid() && file.entry.fileSize == totalSize && !file.entry.IsDirectory() && m <= |chain| && file.Owns(chain[..m])
      ensures file.entry.Cluster().Some? && IsCluster(file.root.State().fat, file.entry.Cluster().value)
      ensures file.root.State().data[file.slot.cluster][file.slot.Begin()..file.slot.Begin() + 32] == D.Encode(D.Sfn(file.entry))
      ensures file.Content() == Remains(written, |chain|, Size(), old(Bound()))
      ensures CutBehind(old(file.root.State()).fat, file.root.State().fat, chain, m)
      ensures Undisturbed(old(file.root.State()), file.root.State(), chain, chain[..m], file.slot)
    {
      hide Root.Valid, Root.State, BootSector.Consistent, BootSector.ClusterCount, BootSector.ClusterBytes, D.Encode,
        Undisturbed, IsPath, Prefix, FreeBeside, Loops, Writing, Wrapping, Stream, Remains;
      ghost var fs := file.root.State();
      file.root.Shapes();
      ghost var e := file.entry.(fileSize := totalSize).MarkArchive();
      DropReads(fs, Size(), chain, m, turns, cursor.value.offset, written, file.slot, D.Encode(D.Sfn(e)));
      ReleaseRest(file.root, cursor.value.cluster);
      file.SetFileSize(totalSize);
    }

    /** Drop without a cursor: gives everything back. */
    method DropAll()
      requires Attached() && totalSize < 0x1_0000_0000
      modifies file`entry, file.root.volume
      ensures file.Valid() && file.entry.fileSize == totalSize && !file.entry.IsDirectory() && file.Owns([])
      ensures file.entry.Cluster() == None && file.Content() == []
      ensures file.root.State().data[file.slot.cluster][file.slot.Begin()..file.slot.Begin() + 32] == D.Encode(D.Sfn(file.entry))
      ensures Undisturbed(old(file.root.State()), file.root.State(), chain, [], file.slot)
    {
      hide Root.Valid, Root.State, BootSector.Consistent, BootSector.ClusterCount, BootSector.ClusterBytes, D.Encode,
        Undisturbed, IsPath, Prefix, FreeBeside, Loops, Writing, Wrapping, Stream, Remains;
      ghost var fs := file.root.State();
      file.root.Shapes();
      file.ReleaseCluster(chain);
      ghost var fs1 := file.root.State();
      file.SetFileSize(totalSize);
      EntryUndisturbed(fs1, Size(), file.slot, D.Encode(D.Sfn(file.entry)));
      UndisturbedTwice(fs, fs1, file.root.State(), chain, [], [], file.slot);
      NothingToRead(file.root.State(), Size(), totalSize);
    }

    /** Drop: cuts the chain behind the cursor, or gives everything back without one, and records the
        size in the directory entry. The file keeps its clusters up to the cursor. */
    method Drop()
      requires (if cursor.Some? then Valid() else Attached()) && totalSize < 0x1_0000_0000
      modifies file`entry, file.root.volume
      ensures file.Valid() && file.entry.fileSize == totalSize && !file.entry.IsDirectory() && file.Owns(Kept())
      ensures file.entry.Cluster().Some? ==> IsCluster(file.root.State().fat, file.entry.Cluster().value)
      ensures file.root.State().data[file.slot.cluster][file.slot.Begin()..file.slot.Begin() + 32] == D.Encode(D.Sfn(file.entry))
      ensures file.Content() == if cursor.Some? then Remains(written, |chain|, Size(), old(Bound())) else []
      ensures cursor.Some? ==> CutBehind(old(file.root.State()).fat, file.root.State().fat, chain, m)
      ensures Undisturbed(old(file.root.State()), file.root.State(), chain, Kept(), file.slot)
    {
      hide Root.Valid, Root.State, BootSector.Consistent, BootSector.ClusterCount, BootSector.ClusterBytes, D.Encode,
        Undisturbed, IsPath, Prefix, FreeBeside, Loops, Writing, Wrapping, Stream, Remains;
      if cursor.Some? {
        DropAt();
      } else {
        DropAll();
      }
    }
  }

  /** The table after the clusters behind the `m`-th one were given back. */
  ghost predicate CutBehind(fat: Fat, fat': Fat, chain: seq<nat>, m: nat) {
    1 <= m <= |chain| && InRange(fat) && IsCluster(fat, chain[m - 1]) && fat' == Cut(fat, chain[m - 1])
  }

  /** The place of a writer after it went on: the invariants of `FileWriter` on values. */
  ghost predicate MovedOn(fs: Fs, fs': Fs, size: nat, chain: seq<nat>, chain': seq<nat>, m': nat, turns': nat,
      written: seq<byte>, slot: Slot)
  {
    && Readable(fs', size) && SlotOk(fs', size, slot) && slot.cluster !in chain' && 0 < size
    && 1 <= m' <= |chain'| && chain != [] && chain <= chain'
    && (Writing(fs', size, chain', m', 0, written) || (m' == |chain'| && Wrapping(fs', size, chain', turns', 0, written)))
    && |chain'| + FreeBeside(fs'.fat, chain') == |chain| + FreeBeside(fs.fat, chain)
    && (Loops(fs'.fat, chain') <==> Loops(fs.fat, chain)) && (Loops(fs.fat, chain) ==> chain' == chain)
    && Undisturbed(fs, fs', chain, chain', slot)
  }

  /** What ChainedCluster::prepare does at the end of a cluster. */
  lemma {:induction false} Successor(fs: Fs, size: nat, chain: seq<nat>, m: nat, turns: nat, written: seq<byte>,
      slot: Slot) returns (chain': seq<nat>, m': nat, turns': nat)
    requires Readable(fs, size) && SlotOk(fs, size, slot) && slot.cluster !in chain && 1 <= m <= |chain|
    requires Writing(fs, size, chain, m, size, written) || (m == |chain| && Wrapping(fs, size, chain, turns, size, written))
    ensures IsCluster(fs.fat, chain[m - 1])
    ensures Prepared(fs.fat, chain[m - 1]) == None <==> !Loops(fs.fat, chain) && m == |chain| && FreeBeside(fs.fat, chain) == 0
    ensures Prepared(fs.fat, chain[m - 1]) == None ==> IsClosed(fs.fat, chain) && Undisturbed(fs, fs, chain, chain, slot)
    ensures Prepared(fs.fat, chain[m - 1]).Some? ==>
              var (fat', c) := Prepared(fs.fat, chain[m - 1]).value;
              && MovedOn(fs, fs.(fat := fat'), size, chain, chain', m', turns', written, slot) && c == chain'[m' - 1]
              && (m' < |chain'| ==> m < |chain| && chain' == chain && fat' == fs.fat)
  {
    hide MovedOn, Wrapping, Writing, FreeBeside, Undisturbed;
    chain', m', turns' := chain, m, turns;
    if Wrapping(fs, size, chain, turns, size, written) && m == |chain| {
      GoesRound(fs, size, chain, turns, written, slot);
      turns' := turns + 1;
    } else if m < |chain| {
      GoesAlong(fs, size, chain, m, turns, written, slot);
      m' := m + 1;
    } else {
      ClosedHere(fs, size, chain, m, size, written, slot);
      PrepareClosed(fs.fat, chain);
      if Binds(fs.fat, chain) {
        BeginsRound(fs, size, chain, written, slot);
        turns' := |chain|;
      } else if Prepared(fs.fat, chain[m - 1]).Some? {
        var c := Prepared(fs.fat, chain[m - 1]).value.1;
        Grows(fs, size, chain, turns, written, c, slot);
        chain', m' := chain + [c], m + 1;
      }
    }
  }

  lemma {:induction false} ClosedHere(fs: Fs, size: nat, chain: seq<nat>, m: nat, off: nat, written: seq<byte>, slot: Slot)
    requires Writing(fs, size, chain, m, off, written)
    ensures IsClosed(fs.fat, chain) && IsCluster(fs.fat, chain[m - 1]) && Undisturbed(fs, fs, chain, chain, slot)
    ensures !IsBound(fs.fat, chain)
  {
  }

  lemma {:induction false} GoesRound(fs: Fs, size: nat, chain: seq<nat>, turns: nat, written: seq<byte>, slot: Slot)
    requires Wrapping(fs, size, chain, turns, size, written) && SlotOk(fs, size, slot) && slot.cluster !in chain
    ensures var last := chain[|chain| - 1];
            IsCluster(fs.fat, last) && Prepared(fs.fat, last) == Some((fs.fat, last)) && Loops(fs.fat, chain)
    ensures MovedOn(fs, fs.(fat := fs.fat), size, chain, chain, |chain|, turns + 1, written, slot)
  {
    assert fs.(fat := fs.fat) == fs;
    WrapTurns(fs, size, chain, turns, written);
    hide FreeBeside, Turned, Loops;
  }

  lemma {:induction false} GoesAlong(fs: Fs, size: nat, chain: seq<nat>, m: nat, turns: nat, written: seq<byte>, slot: Slot)
    requires Writing(fs, size, chain, m, size, written) && m < |chain| && SlotOk(fs, size, slot) && slot.cluster !in chain
    ensures IsCluster(fs.fat, chain[m - 1]) && Prepared(fs.fat, chain[m - 1]) == Some((fs.fat, chain[m]))
    ensures MovedOn(fs, fs.(fat := fs.fat), size, chain, chain, m + 1, turns, written, slot)
  {
    assert fs.(fat := fs.fat) == fs;
    WritingMovesOn(fs, size, chain, m, written);
    hide FreeBeside, Prefix, Loops;
  }

  lemma {:induction false} BeginsRound(fs: Fs, size: nat, chain: seq<nat>, written: seq<byte>, slot: Slot)
    requires Writing(fs, size, chain, |chain|, size, written) && Binds(fs.fat, chain)
    requires SlotOk(fs, size, slot) && slot.cluster !in chain
    ensures var last := chain[|chain| - 1];
            MovedOn(fs, fs.(fat := fs.fat[last := UsedChained(last)]), size, chain, chain, |chain|, |chain|, written, slot)
  {
    hide FreeBeside, Writing, Wrapping, Readable, SlotOk, Undisturbed, IsPath;
    WrapStarts(fs, size, chain, written);
    BindingKeeps(fs.fat, chain);
    ClosedHere(fs, size, chain, |chain|, size, written, slot);
    LastChanged(fs, size, chain, |chain|, written, slot);
  }

  lemma {:induction false} LastChanged(fs: Fs, size: nat, chain: seq<nat>, m: nat, written: seq<byte>, slot: Slot)
    requires Writing(fs, size, chain, m, size, written) && SlotOk(fs, size, slot) && slot.cluster !in chain
    ensures var last := chain[|chain| - 1];
            var fs' := fs.(fat := fs.fat[last := UsedChained(last)]);
            Readable(fs', size) && SlotOk(fs', size, slot) && Undisturbed(fs, fs', chain, chain, slot) && 0 < size && 1 <= m <= |chain|
            && IsBound(fs'.fat, chain)
  {
    hide Prefix;
    assert chain[|chain| - 1] in chain;
  }

  lemma {:induction false} Grows(fs: Fs, size: nat, chain: seq<nat>, turns: nat, written: seq<byte>, c: nat, slot: Slot)
    requires Writing(fs, size, chain, |chain|, size, written) && IsCluster(fs.fat, c) && fs.fat[c].Unused? && c !in chain
    requires SlotOk(fs, size, slot) && slot.cluster !in chain && !Binds(fs.fat, chain)
    requires var fat' := fs.fat[c := UsedEoc][chain[|chain| - 1] := UsedChained(c)];
             IsChain(fat', chain + [c]) && FreeBeside(fat', chain + [c]) == FreeBeside(fs.fat, chain) - 1
    ensures var fat' := fs.fat[c := UsedEoc][chain[|chain| - 1] := UsedChained(c)];
            MovedOn(fs, fs.(fat := fat'), size, chain, chain + [c], |chain| + 1, turns, written, slot)
  {
    hide FreeBeside, Writing, Wrapping, Readable, SlotOk, Undisturbed, IsPath, IsChain;
    WritingGrows(fs, size, chain, written, c);
    ClosedHere(fs, size, chain, |chain|, size, written, slot);
    ClusterAdded(fs, size, chain, written, c, slot);
  }

  lemma {:induction false} ClusterAdded(fs: Fs, size: nat, chain: seq<nat>, written: seq<byte>, c: nat, slot: Slot)
    requires Writing(fs, size, chain, |chain|, size, written) && IsCluster(fs.fat, c) && fs.fat[c].Unused? && c !in chain
    requires SlotOk(fs, size, slot) && slot.cluster !in chain
    ensures var fs' := fs.(fat := fs.fat[c := UsedEoc][chain[|chain| - 1] := UsedChained(c)]);
            && Readable(fs', size) && SlotOk(fs', size, slot) && Undisturbed(fs, fs', chain, chain + [c], slot) && 0 < size
            && |chain| > 0 && slot.cluster !in chain + [c] && !Loops(fs'.fat, chain + [c])
  {
    hide Prefix;
    assert chain[|chain| - 1] in chain;
    assert (chain + [c])[|chain|] == c;
  }

  /** The writer stands in its file. */
  lemma {:induction false} Here(fs: Fs, size: nat, chain: seq<nat>, m: nat, turns: nat, off: nat, written: seq<byte>, slot: Slot)
    requires Writing(fs, size, chain, m, off, written) || (m == |chain| && Wrapping(fs, size, chain, turns, off, written))
    ensures 1 <= m <= |chain| && IsCluster(fs.fat, chain[m - 1]) && Undisturbed(fs, fs, chain, chain, slot) && off <= size
  {
    hide Prefix, Turned;
  }

  lemma {:induction false} PutThere(fs: Fs, size: nat, chain: seq<nat>, m: nat, turns: nat, off: nat, written: seq<byte>,
      b: seq<byte>, slot: Slot)
    requires SlotOk(fs, size, slot) && slot.cluster !in chain && off + |b| <= size && 1 <= m <= |chain|
    requires Writing(fs, size, chain, m, off, written) || (m == |chain| && Wrapping(fs, size, chain, turns, off, written))
    ensures IsCluster(fs.fat, chain[m - 1]) && |fs.fat| == |fs.data| && |fs.data[chain[m - 1]]| == size
    ensures var fs' := fs.Store(chain[m - 1], off, b);
            && Readable(fs', size) && SlotOk(fs', size, slot) && Undisturbed(fs, fs', chain, chain, slot)
            && (|| Writing(fs', size, chain, m, off + |b|, written + b)
                || (m == |chain| && Wrapping(fs', size, chain, turns, off + |b|, written + b)))
  {
    hide Wrapping, Writing;
    Here(fs, size, chain, m, turns, off, written, slot);
    Stands(fs, size, chain, m, turns, off, written);
    if Writing(fs, size, chain, m, off, written) {
      WritingPuts(fs, size, chain, m, off, written, b);
    } else {
      WrapPuts(fs, size, chain, turns, off, written, b);
    }
    assert chain[m - 1] in chain;
  }

  lemma {:induction false} Stands(fs: Fs, size: nat, chain: seq<nat>, m: nat, turns: nat, off: nat, written: seq<byte>)
    requires Writing(fs, size, chain, m, off, written) || (m == |chain| && Wrapping(fs, size, chain, turns, off, written))
    ensures Readable(fs, size)
  {
  }

  /** What the file holds once its writer is dropped. */
  lemma {:induction false} DropReads(fs: Fs, size: nat, chain: seq<nat>, m: nat, turns: nat, off: nat, written: seq<byte>,
      slot: Slot, b: seq<byte>)
    requires SlotOk(fs, size, slot) && slot.cluster !in chain && 1 <= m <= |chain| && |b| == 32
    requires Writing(fs, size, chain, m, off, written) || (m == |chain| && Wrapping(fs, size, chain, turns, off, written))
    ensures InRange(fs.fat) && IsCluster(fs.fat, chain[m - 1])
    ensures var fs' := fs.(fat := Cut(fs.fat, chain[m - 1])).Store(slot.cluster, slot.Begin(), b);
            && Readable(fs', size) && SlotOk(fs', size, slot) && IsClosed(fs'.fat, chain[..m]) && IsCluster(fs'.fat, chain[0])
            && Undisturbed(fs, fs', chain, chain[..m], slot)
            && CursorOk(fs', Some(Position(chain[0], 0)))
            && Stream(fs', size, Some(Position(chain[0], 0)), |written|) == Remains(written, |chain|, size, Loops(fs.fat, chain))
  {
    hide Writing, Wrapping, Undisturbed, IsPath, Stream, Remains, Cut, Binds;
    Here(fs, size, chain, m, turns, off, written, slot);
    Stands(fs, size, chain, m, turns, off, written);
    assert chain[..|chain|] == chain;
    if Writing(fs, size, chain, m, off, written) {
      WrittenReadsBack(fs, size, chain, m, off, written, slot, b);
      WrittenRemains(fs, size, chain, m, off, written);
    } else {
      WrappedReadsBack(fs, size, chain, turns, off, written, slot, b);
      WrappedRemains(fs, size, chain, turns, off, written);
      WrappedLoops(fs, size, chain, turns, off, written);
    }
  }

  lemma {:induction false} WrittenRemains(fs: Fs, size: nat, chain: seq<nat>, m: nat, off: nat, written: seq<byte>)
    requires Writing(fs, size, chain, m, off, written)
    ensures Remains(written, |chain|, size, Loops(fs.fat, chain)) == written
  {
    WritingLength(fs, size, chain, m, off, written);
    TimesMonotone(m, |chain|, size);
    assert m * size == (m - 1) * size + size;
  }

  lemma WrappedLoops(fs: Fs, size: nat, chain: seq<nat>, turns: nat, off: nat, written: seq<byte>)
    requires Wrapping(fs, size, chain, turns, off, written)
    ensures Loops(fs.fat, chain)
  {
  }

  lemma NothingLoops(fat: Fat)
    ensures !Loops(fat, [])
  {
  }

  lemma NewLoops(fat: Fat, c: nat)
    requires IsCluster(fat, c) && fat[c].UsedEoc?
    ensures !Loops(fat, [c])
  {
  }

  /** File::appender: a writer behind the last byte of the file. A chain that is too short for the
      recorded size counts as all there is. */
  method Appender(file: File, ghost chain: seq<nat>) returns (w: FileWriter)
    requires file.Valid() && file.Owns(chain) && !file.entry.IsDirectory()
    modifies file.root.volume
    ensures w.Valid() && fresh(w) && w.file == file && w.chain == chain && file.root.State() == old(file.root.State())
    ensures chain != [] ==> IsCluster(file.root.State().fat, chain[0])
    ensures w.written == file.Content() && w.Rested()
  {
    hide Root.Valid, Root.State, BootSector.Consistent, BootSector.ClusterCount, BootSector.ClusterBytes, D.Encode,
      Undisturbed, IsPath, Prefix, Stream, BytesOf, Readable, SlotOk, Writing, Wrapping, FreeBeside, Loops, Remains;
    w := new FileWriter.Overwriter(file, chain);
    var start := file.entry.Cluster();
    if start.None? {
      NothingToRead(file.root.State(), w.Size(), file.entry.fileSize);
    } else {
      NonEmptyPath(file.root.State().fat, chain);
      var c, rest, total;
      ghost var m;
      c, rest, total, m := EndOf(file, chain);
      WalkEnds(file.root.State(), w.Size(), chain, m, rest, file.Content());
      w.m := m;
      w.totalSize := total;
      w.cursor := Some(Position(c, rest));
      w.written := file.Content();
    }
  }

  function Concat(bufs: seq<seq<byte>>): seq<byte> {
    if bufs == [] then [] else Concat(bufs[..|bufs| - 1]) + bufs[|bufs| - 1]
  }

  /** Every write of `bufs` through `w`, up to the first failure. */
  method WriteAll(w: FileWriter, bufs: seq<seq<byte>>) returns (r: Result<(), Error>)
    requires w.Valid()
    modifies w, w.file`entry, w.file.root.volume
    ensures w.file.root.Valid() && w.totalSize <= old(w.totalSize) + |Concat(bufs)|
    ensures r.Ok? ==> w.Valid() && w.written == old(w.written) + Concat(bufs)
    ensures r.Err? ==> w.Attached() && w.cursor == None
    ensures r.Ok? <==> old(w.Bound()) || |old(w.written)| + |Concat(bufs)| <= old(w.Budget()) * w.Size()
    ensures w.Bound() == old(w.Bound()) && (w.Bound() ==> w.chain == old(w.chain)) && old(w.chain) <= w.chain
    ensures r.Ok? && old(w.Rested()) ==> w.Rested()
    ensures w.Inside() && r.Ok? ==> w.chain == old(w.chain) && w.file.root.State().fat == old(w.file.root.State().fat)
    ensures Undisturbed(old(w.file.root.State()), w.file.root.State(), old(w.chain), w.chain, w.file.slot)
  {
    hide Root.Valid, Root.State, BootSector.Consistent, BootSector.ClusterCount, BootSector.ClusterBytes, D.Encode,
      Undisturbed, IsPath, Prefix, Stream, BytesOf, Readable, SlotOk, Writing, Wrapping, FreeBeside, Loops, Remains;
    w.file.root.Shapes();
    if w.cursor.Some? {
      Here(w.file.root.State(), w.Size(), w.chain, w.m, w.turns, w.cursor.value.offset, w.written, w.file.slot);
    } else {
      Untouched(w.file.root.State(), w.Size(), w.chain, w.file.slot);
    }
    for i := 0 to |bufs|
      invariant w.Valid() && w.written == old(w.written) + Concat(bufs[..i]) && w.Budget() == old(w.Budget())
      invariant w.Bound() == old(w.Bound()) && (w.Bound() ==> w.chain == old(w.chain)) && old(w.chain) <= w.chain
      invariant old(w.Rested()) ==> w.Rested()
      invariant w.Inside() ==> w.chain == old(w.chain) && w.file.root.State().fat == old(w.file.root.State().fat)
      invariant Undisturbed(old(w.file.root.State()), w.file.root.State(), old(w.chain), w.chain, w.file.slot)
    {
      ghost var fs, was := w.file.root.State(), w.chain;
      ConcatGrows(bufs, i);
      r := w.Write(bufs[i]);
      UndisturbedTwice(old(w.file.root.State()), fs, w.file.root.State(), old(w.chain), was, w.chain, w.file.slot);
      if r.Err? {
        return;
      }
    }
    assert bufs[..|bufs|] == bufs;
    if !w.Bound() { w.WithinBudget(); }
    return Ok(());
  }

  lemma {:induction false} ConcatGrows(bufs: seq<seq<byte>>, i: nat)
    requires i < |bufs|
    ensures Concat(bufs[..i + 1]) == Concat(bufs[..i]) + bufs[i]
    ensures |Concat(bufs[..i])| + |bufs[i]| <= |Concat(bufs)|
    decreases |bufs| - i
  {
    assert bufs[..i + 1][..i] == bufs[..i];
    if i + 1 < |bufs| {
      ConcatGrows(bufs, i + 1);
    } else {
      assert bufs[..i + 1] == bufs;
    }
  }

  method Writer(file: File, ghost chain: seq<nat>, append: bool) returns (w: FileWriter)
    requires file.Valid() && file.Owns(chain) && !file.entry.IsDirectory()
    requires chain != [] ==> IsCluster(file.root.State().fat, chain[0])
    modifies file.root.volume
    ensures w.Valid() && fresh(w) && w.file == file && w.chain == chain && file.root.State() == old(file.root.State())
    ensures w.written == (if append then old(file.Content()) else []) && w.Rested()
  {
    hide Root.Valid, Root.State, BootSector.Consistent, BootSector.ClusterCount, BootSector.ClusterBytes, D.Encode,
      Undisturbed, IsPath, Prefix, Stream, BytesOf, Readable, SlotOk, Writing, Wrapping, FreeBeside, Loops, Remains;
    if append {
      w := Appender(file, chain);
    } else {
      w := new FileWriter.Overwriter(file, chain);
    }
  }

  /** The clusters that a file of `length` bytes keeps: as many as it needs; a chain that is longer is cut
      behind them, so that the last one is marked unused. */
  ghost predicate Keeps(fat: Fat, fat': Fat, chain: seq<nat>, chain': seq<nat>, size: nat, length: nat, loops: bool) {
    && (length > 0 ==> chain' != [])
    && (|chain'| > 1 ==> (|chain'| - 1) * size < length)
    && (length <= |chain'| * size || (loops && chain' == chain))
    && (0 < |chain'| < |chain| ==> chain' == chain[..|chain'|] && CutBehind(fat, fat', chain, |chain'|))
  }

  lemma {:induction false} FinishKeeps(fat: Fat, fs: Fs, fat': Fat, size: nat, was: seq<nat>, chain: seq<nat>, m: nat,
      turns: nat, off: nat, written: seq<byte>)
    requires Writing(fs, size, chain, m, off, written) || (m == |chain| && Wrapping(fs, size, chain, turns, off, written))
    requires (off == 0 ==> m == 1) && was <= chain && CutBehind(fs.fat, fat', chain, m)
    requires m < |chain| ==> chain == was && fs.fat == fat
    requires Loops(fs.fat, chain) ==> chain == was
    ensures Keeps(fat, fat', was, chain[..m], size, |written|, Loops(fs.fat, chain))
  {
    hide Writing, Wrapping, Cut, InRange, Binds;
    RestLength(fs, size, chain, m, turns, off, written);
    assert m == |chain| ==> chain[..m] == chain;
  }

  lemma KeepsNothing(fat: Fat, fat': Fat, size: nat, was: seq<nat>, loops: bool)
    ensures Keeps(fat, fat', was, [], size, 0, loops)
  {
  }

  lemma {:induction false} RestLength(fs: Fs, size: nat, chain: seq<nat>, m: nat, turns: nat, off: nat, written: seq<byte>)
    requires Writing(fs, size, chain, m, off, written) || (m == |chain| && Wrapping(fs, size, chain, turns, off, written))
    ensures Writing(fs, size, chain, m, off, written) ==> |written| <= m * size
    ensures off > 0 ==> (m - 1) * size < |written|
    ensures !Writing(fs, size, chain, m, off, written) ==> m == |chain| && IsBound(fs.fat, chain) && m * size <= |written| && 0 < size
  {
    hide Prefix, Turned, BytesOf;
    if Writing(fs, size, chain, m, off, written) {
      WritingLength(fs, size, chain, m, off, written);
      assert m * size == (m - 1) * size + size;
    } else {
      WrappingLength(fs, size, chain, turns, off, written);
      assert m * size == (m - 1) * size + size;
    }
  }

  /** Writes `bufs` and drops the writer. */
  method Finish(w: FileWriter, bufs: seq<seq<byte>>) returns (r: Result<(), Error>, ghost chain': seq<nat>)
    requires w.Valid() && w.Rested() && |w.written| + |Concat(bufs)| < 0x1_0000_0000
    modifies w, w.file`entry, w.file.root.volume
    ensures w.file.Valid() && !w.file.entry.IsDirectory() && w.file.Owns(chain')
    ensures w.file.entry.Cluster().Some? ==> IsCluster(w.file.root.State().fat, w.file.entry.Cluster().value)
    ensures w.file.Content() == if r.Err? then [] else Remains(old(w.written) + Concat(bufs), |old(w.chain)|, w.Size(), old(w.Bound()))
    ensures r.Ok? <==> old(w.Bound()) || |old(w.written)| + |Concat(bufs)| <= old(w.Budget()) * w.Size()
    ensures r.Ok? ==> Keeps(old(w.file.root.State()).fat, w.file.root.State().fat, old(w.chain), chain', w.Size(),
                            |old(w.written)| + |Concat(bufs)|, old(w.Bound()))
    ensures w.file.root.State().data[w.file.slot.cluster][w.file.slot.Begin()..w.file.slot.Begin() + 32] == D.Encode(D.Sfn(w.file.entry))
    ensures Undisturbed(old(w.file.root.State()), w.file.root.State(), old(w.chain), chain', w.file.slot)
  {
    hide Root.Valid, Root.State, BootSector.Consistent, BootSector.ClusterCount, BootSector.ClusterBytes, D.Encode,
      Undisturbed, IsPath, Prefix, Stream, BytesOf, Readable, SlotOk, Writing, Wrapping, FreeBeside, Loops, Remains,
      Keeps, CutBehind;
    r := WriteAll(w, bufs);
    ghost var fs := w.file.root.State();
    chain' := w.Kept();
    Unlooped(w.written, |w.chain|, |old(w.chain)|, w.Size());
    ghost var loops := w.Bound();
    w.Drop();
    if r.Ok? {
      if w.cursor.Some? {
        FinishKeeps(old(w.file.root.State()).fat, fs, w.file.root.State().fat, w.Size(), old(w.chain), w.chain, w.m, w.turns,
          w.cursor.value.offset, w.written);
      } else {
        KeepsNothing(old(w.file.root.State()).fat, w.file.root.State().fat, w.Size(), old(w.chain), loops);
      }
    }
    UndisturbedTwice(old(w.file.root.State()), fs, w.file.root.State(), old(w.chain), w.chain, chain', w.file.slot);
  }

  /** What the file is to hold. */
  ghost function Wanted(file: File, append: bool, bufs: seq<seq<byte>>): seq<byte>
    requires file.Valid() && (file.entry.Cluster().Some? ==> IsCluster(file.root.State().fat, file.entry.Cluster().value))
    reads file, file.root, file.root.volume
  {
    (if append then file.Content() else []) + Concat(bufs)
  }

  /** It fits into the clusters that the file has or can get, or the last one stands for all that follow. */
  ghost predicate Fits(file: File, chain: seq<nat>, append: bool, bufs: seq<seq<byte>>)
    requires file.Valid() && (file.entry.Cluster().Some? ==> IsCluster(file.root.State().fat, file.entry.Cluster().value))
    reads file, file.root, file.root.volume
  {
    || Loops(file.root.State().fat, chain)
    || |Wanted(file, append, bufs)| <= (|chain| + FreeBeside(file.root.State().fat, chain)) * file.Size()
  }

  /** What the file then holds. */
  ghost function Held(file: File, chain: seq<nat>, append: bool, bufs: seq<seq<byte>>): seq<byte>
    requires file.Valid() && (file.entry.Cluster().Some? ==> IsCluster(file.root.State().fat, file.entry.Cluster().value))
    reads file, file.root, file.root.volume
  {
    if Fits(file, chain, append, bufs)
    then Remains(Wanted(file, append, bufs), |chain|, file.Size(), Loops(file.root.State().fat, chain))
    else []
  }

  /** The file holds what was wanted exactly when that fits into its clusters, or into these and the free ones
      beside its last cluster, unless the last cluster is marked unused and no lower one is. */
  lemma {:induction false} HeldExact(file: File, chain: seq<nat>, append: bool, bufs: seq<seq<byte>>)
    requires file.Valid() && file.Owns(chain)
    requires chain != [] ==> IsCluster(file.root.State().fat, chain[0])
    ensures var fat, w, size := file.root.State().fat, Wanted(file, append, bufs), file.Size();
            Held(file, chain, append, bufs) == w <==>
              || |w| <= |chain| * size
              || (!Binds(fat, chain) && |w| <= (|chain| + FreeBeside(fat, chain)) * size)
  {
    hide Root.Valid, Root.State, Stream, FreeBeside, Remains, Binds;
    var fat, w, n, size := file.root.State().fat, Wanted(file, append, bufs), |chain|, file.Size();
    TimesMonotone(n, n + FreeBeside(fat, chain), size);
    ClosedLoops(fat, chain);
    if chain != [] {
      RemainsExact(w, n, size, Loops(fat, chain));
    } else {
      NothingRemains(w, size, Loops(fat, chain));
    }
  }

  lemma ClosedLoops(fat: Fat, chain: seq<nat>)
    requires chain == [] || IsClosed(fat, chain)
    ensures Loops(fat, chain) <==> Binds(fat, chain)
    ensures chain == [] ==> !Loops(fat, chain)
  {
  }

  lemma Unlooped(written: seq<byte>, n: nat, n': nat, size: nat)
    ensures Remains(written, n, size, false) == Remains(written, n', size, false) == written
    ensures forall loops :: Remains([], n, size, loops) == []
  {
  }

  lemma NothingRemains(written: seq<byte>, size: nat, loops: bool)
    ensures Remains(written, 0, size, loops) == written
  {
  }

  /** Opens a writer, writes `bufs` and drops the writer. The file then holds what was wanted if that fits
      into the clusters that the file has or can get; nothing at all if not; and if its last cluster, marked
      unused by an earlier cut, stands for all that follow, what is left after going round in it. The file can
      be written again. Clusters in use by others keep their table entries and their bytes. */
  method Rewrite(file: File, ghost chain: seq<nat>, append: bool, bufs: seq<seq<byte>>)
    returns (r: Result<(), Error>, ghost chain': seq<nat>)
    requires file.Valid() && file.Owns(chain) && !file.entry.IsDirectory()
    requires chain != [] ==> IsCluster(file.root.State().fat, chain[0])
    requires |Wanted(file, append, bufs)| < 0x1_0000_0000
    modifies file`entry, file.root.volume
    ensures file.Valid() && !file.entry.IsDirectory() && file.Owns(chain')
    ensures file.entry.Cluster().Some? ==> IsCluster(file.root.State().fat, file.entry.Cluster().value)
    ensures r.Ok? <==> old(Fits(file, chain, append, bufs))
    ensures file.Content() == old(Held(file, chain, append, bufs))
    ensures r.Ok? ==> Keeps(old(file.root.State()).fat, file.root.State().fat, chain, chain', file.Size(),
                            |old(Wanted(file, append, bufs))|, old(Loops(file.root.State().fat, chain)))
    ensures file.root.State().data[file.slot.cluster][file.slot.Begin()..file.slot.Begin() + 32] == D.Encode(D.Sfn(file.entry))
    ensures Undisturbed(old(file.root.State()), file.root.State(), chain, chain', file.slot)
  {
    hide Root.Valid, Root.State, BootSector.Consistent, BootSector.ClusterCount, BootSector.ClusterBytes, D.Encode,
      Undisturbed, IsPath, Prefix, Stream, BytesOf, Readable, SlotOk, Writing, Wrapping, FreeBeside, Loops, Remains;
    var w := Writer(file, chain, append);
    r, chain' := Finish(w, bufs);
  }

  /** Whatever is written to a file, and however it is cut into writes, is what a reader then gets,
      after the old content for an appender, as far as the file can hold it (`HeldExact`). */
  method RoundTrip(file: File, ghost chain: seq<nat>, append: bool, bufs: seq<seq<byte>>)
    returns (r: Result<seq<byte>, Error>, ghost chain': seq<nat>)
    requires file.Valid() && file.Owns(chain) && !file.entry.IsDirectory()
    requires chain != [] ==> IsCluster(file.root.State().fat, chain[0])
    requires |Wanted(file, append, bufs)| < 0x1_0000_0000
    modifies file`entry, file.root.volume
    ensures r == if old(Fits(file, chain, append, bufs)) then Ok(old(Held(file, chain, append, bufs))) else Err(Full)
    ensures file.Valid() && file.Owns(chain')
    ensures file.root.Valid() && Undisturbed(old(file.root.State()), file.root.State(), chain, chain', file.slot)
  {
    hide Root.Valid, Root.State, BootSector.Consistent, BootSector.ClusterCount, BootSector.ClusterBytes, D.Encode,
      Undisturbed, IsPath, Prefix, Stream, BytesOf, Readable, SlotOk, Writing, Wrapping, FreeBeside, Loops, Remains;
    var t;
    t, chain' := Rewrite(file, chain, append, bufs);
    if t.Err? {
      assert t.error == Full;
      return Err(t.error), chain';
    }
    var reader := new FileReader(file);
    var b := reader.ReadToEnd();
    return Ok(b), chain';
  }

  lemma {:induction false} EntryUndisturbed(fs: Fs, size: nat, slot: Slot, b: seq<byte>)
    requires SlotOk(fs, size, slot) && |b| == 32
    ensures Undisturbed(fs, fs.Store(slot.cluster, slot.Begin(), b), [], [], slot)
  {
  }

  lemma {:induction false} NothingToRead(fs: Fs, size: nat, rest: nat)
    requires Readable(fs, size)
    ensures Stream(fs, size, None, rest) == []
  {
  }

  lemma {:induction false} Untouched(fs: Fs, size: nat, chain: seq<nat>, slot: Slot)
    requires Shaped(fs, size) && (chain == [] || IsPath(fs.fat, chain))
    ensures Undisturbed(fs, fs, chain, chain, slot)
  {
  }
}
