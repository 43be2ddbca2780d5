/** Removal and renaming of files, fs/fat.rs. */
module Removals {
  import opened Bytes
  import opened FatEntries
  import opened BootSectors
  import opened LowLevel
  import opened Chains
  import opened FileContents
  import opened Listings
  import opened Insertions
  import opened DirectorySlots
  import opened Directories
  import opened LongNames
  import D = DirEntries
  import F = Files

  datatype RemoveError = DirectoryNotEmpty

  /** `own` holds the clusters of the file with the short entry `sfn`, none of them of the directory. */
  ghost predicate Has(fat: Fat, sfn: D.SfnEntry, own: seq<nat>, chain: seq<nat>) {
    && (forall k :: k in own ==> k !in chain)
    && match sfn.Cluster()
       case None => own == []
       case Some(c) => IsClosed(fat, own) && own[0] == c && (sfn.IsDirectory() ==> IsChain(fat, own))
  }

  /** The entry of a listed file, as it is stored, and with its clusters taken off. */
  lemma {:induction false} ListedEntry(fs: Fs, size: nat, chain: seq<nat>, l: Listed, m: nat, n: nat)
    requires Locates(fs, size, chain, m, n, l.last) && n < size / 32
    requires Whole(Slots(fs.data, chain)) && Files(Slots(fs.data, chain)).Some? && l in Files(Slots(fs.data, chain)).value
    ensures l.first <= l.last < |Slots(fs.data, chain)| && Slots(fs.data, chain)[l.last] == D.Sfn(l.sfn) && l.sfn.Valid()
    ensures var e := l.sfn.SetCluster(None).MarkArchive();
            e.Valid() && D.Decode(D.Encode(D.Sfn(e))) == D.Sfn(e)
  {
    hide Slots, D.Encode, D.Decode, List, Whole, End, D.SfnEntry.SetCluster, D.SfnEntry.MarkArchive;
    var s := Slots(fs.data, chain);
    ListedBlock(s, Init, 0, 0, l);
    SlotFound(fs, size, chain, m, n, l.last);
    D.ReadIsEncodable(fs.data[chain[m]][n * 32..(n + 1) * 32], l.sfn);
  }

  /** Freeing clusters of others and editing one entry. */
  lemma {:induction false} DirectoryEdited(fs: Fs, fs': Fs, size: nat, chain: seq<nat>, own: seq<nat>, m: nat, n: nat, at: nat, e: D.SfnEntry)
    requires Locates(fs, size, chain, m, n, at) && n < size / 32 && e.Valid() && D.Decode(D.Encode(D.Sfn(e))) == D.Sfn(e)
    requires Readable(fs', size) && |fs'.fat| == |fs.fat| && chain[m] < |fs.data| && (n + 1) * 32 <= |fs.data[chain[m]]|
    requires fs'.data == fs.Store(chain[m], n * 32, D.Encode(D.Sfn(e))).data
    requires forall k :: k in own ==> k !in chain
    requires forall k :: 0 <= k < |fs.fat| ==> fs'.fat[k] == if k in own then Unused else fs.fat[k]
    ensures IsChain(fs'.fat, chain) && at < |Slots(fs.data, chain)| && Slots(fs'.data, chain) == Slots(fs.data, chain)[at := D.Sfn(e)]
  {
    hide D.Encode, D.Decode, Slots, Shaped;
    SlotStored(fs, size, chain, m, n, at, D.Sfn(e));
    InTable(fs.fat, chain);
    ChainFrame(fs.fat, fs'.fat, chain);
  }

  lemma InTable(fat: Fat, chain: seq<nat>)
    requires IsChain(fat, chain)
    ensures forall k :: k in chain ==> IsCluster(fat, k)
  {
  }

  /** The places of entries do not depend on the table elsewhere. */
  lemma {:induction false} PlaceStays(fs: Fs, fs': Fs, size: nat, chain: seq<nat>, m: nat, n: nat, at: nat)
    requires Locates(fs, size, chain, m, n, at) && Readable(fs', size) && |fs'.fat| == |fs.fat| && IsChain(fs'.fat, chain)
    ensures Locates(fs', size, chain, m, n, at)
  {
    SlotsLength(fs.data, fs'.data, chain[..m]);
  }

  /** The files that a directory lists, if it has a cluster. */
  ghost function FilesIn(root: Root, sfn: D.SfnEntry, own: seq<nat>): Option<seq<Listed>>
    requires root.Valid() && Readable(root.State(), root.bs.ClusterBytes()) && (sfn.IsDirectory() && own != [] ==> IsChain(root.State().fat, own))
    reads root, root.volume
  {
    if sfn.IsDirectory() && own != [] then Files(Slots(root.State().data, own)) else Some([])
  }

  /** Whether a file is a directory that lists files. */
  method IsFilled(root: Root, sfn: D.SfnEntry, ghost own: seq<nat>) returns (filled: bool)
    requires root.Valid() && Readable(root.State(), root.bs.ClusterBytes()) && Has(root.State().fat, sfn, own, [])
    requires FilesIn(root, sfn, own).Some?
    modifies root.volume
    ensures root.Valid() && root.State() == old(root.State())
    ensures filled <==> FilesIn(root, sfn, own).value != []
  {
    hide Root.Valid, Root.State, BootSector.Consistent, BootSector.ClusterCount, BootSector.ClusterBytes, Slots, IsChain,
      Locates, List, Stands;
    filled := false;
    if sfn.IsDirectory() && sfn.Cluster().Some? {
      NonEmptyChain(root.State().fat, own);
      var entries := new EntryCursor(root, sfn.Cluster().value, own);
      var t;
      ghost var l, m, m';
      t, l, m, m' := NextFile(entries);
      filled := t.Some?;
    }
  }

  /** `t` is `s` but for the short entry at `at`. */
  ghost predicate SameButOne(s: Entries, t: Entries, at: nat) {
    |t| == |s| && forall j :: 0 <= j < |s| && j != at ==> t[j] == s[j]
  }

  lemma {:induction false} ErasedSame(s: Entries, t: Entries, p: nat, q: nat)
    requires p <= q < |s| && SameButOne(s, t, q)
    ensures Erased(t, p, q + 1) == Erased(s, p, q + 1)
  {
  }

  lemma {:induction false} SlotUsable(fs: Fs, size: nat, chain: seq<nat>, m: nat, n: nat, at: nat)
    requires Locates(fs, size, chain, m, n, at) && n < size / 32
    ensures SlotOk(fs, size, Slot(chain[m], n)) && (n + 1) * 32 <= |fs.data[chain[m]]| && chain[m] in chain
  {
    SlotFound(fs, size, chain, m, n, at);
    ChainInUse(fs.fat, chain, chain[m]);
  }

  /** The clusters of the file are given back and taken off its entry. */
  method Detach(root: Root, f: Found, ghost l: Listed, ghost chain: seq<nat>, ghost m: nat, ghost m': nat, ghost own: seq<nat>)
    requires IsDir(root, chain) && Stands(root, chain, f, l, m, m') && f.sfn.Valid()
    requires Has(root.State().fat, f.sfn, own, chain)
    requires var e := f.sfn.SetCluster(None).MarkArchive(); e.Valid() && D.Decode(D.Encode(D.Sfn(e))) == D.Sfn(e)
    modifies root.volume
    ensures IsDir(root, chain) && SameButOne(old(EntriesOf(root, chain)), EntriesOf(root, chain), l.last)
    ensures At(root, chain, f.first, m, l.first) && At(root, chain, f.last, m', l.last)
    ensures |root.State().fat| == |old(root.State()).fat|
    ensures forall k :: 0 <= k < |root.State().fat| ==> root.State().fat[k] == if k in own then Unused else old(root.State()).fat[k]
    ensures |root.State().data| == |old(root.State()).data|
    ensures forall k :: 0 <= k < |root.State().data| && k !in chain ==> root.State().data[k] == old(root.State()).data[k]
  {
    hide Root.Valid, Root.State, BootSector.Consistent, BootSector.ClusterCount, BootSector.ClusterBytes, Slots, IsChain,
      Locates, Undisturbed, D.Encode, D.Decode, D.SfnEntry.Cluster, D.SfnEntry.SetCluster, D.SfnEntry.MarkArchive;
    ghost var fs, size := root.State(), root.bs.ClusterBytes();
    root.Shapes();
    SlotUsable(fs, size, chain, m', f.last.index, l.last);
    var file := new F.File(root, f.last, f.sfn);
    file.ReleaseCluster(own);
    root.Shapes();
    if f.sfn.Cluster().Some? {
      DirectoryEdited(fs, root.State(), size, chain, own, m', f.last.index, l.last, file.entry);
      PlaceStays(fs, root.State(), size, chain, m, f.first.index, l.first);
      PlaceStays(fs, root.State(), size, chain, m', f.last.index, l.last);
    }
  }

  /** File::remove, not recursive: refused for a directory that lists files; otherwise exactly the file
      is gone from the listing, and exactly its clusters are free. */
  method Remove(root: Root, f: Found, ghost l: Listed, ghost chain: seq<nat>, ghost m: nat, ghost m': nat, ghost own: seq<nat>)
    returns (r: Result<(), RemoveError>)
    requires IsDir(root, chain) && Whole(EntriesOf(root, chain))
    requires Files(EntriesOf(root, chain)).Some? && l in Files(EntriesOf(root, chain)).value && Stands(root, chain, f, l, m, m')
    requires Has(root.State().fat, f.sfn, own, chain) && FilesIn(root, f.sfn, own).Some?
    modifies root.volume
    ensures IsDir(root, chain)
    ensures r.Err? <==> old(FilesIn(root, f.sfn, own)).value != []
    ensures r.Err? ==> root.State() == old(root.State())
    ensures r.Ok? ==>
              && Adds(Files(EntriesOf(root, chain)), Files(old(EntriesOf(root, chain))), [l])
              && Whole(EntriesOf(root, chain)) && End(EntriesOf(root, chain)) == End(old(EntriesOf(root, chain)))
              && |root.State().fat| == |old(root.State()).fat|
              && (forall k :: 0 <= k < |root.State().fat| ==> root.State().fat[k] == if k in own then Unused else old(root.State()).fat[k])
              && OthersKept(old(root.State()), root.State(), chain + own)
  {
    hide Root.Valid, Root.State, BootSector.Consistent, BootSector.ClusterCount, BootSector.ClusterBytes, Slots, IsChain,
      Locates, List, Whole, End, Undisturbed, Adds, OthersKept, D.Encode, D.SfnEntry.Cluster, D.SfnEntry.SetCluster,
      D.SfnEntry.MarkArchive;
    ghost var fs, size, s := root.State(), root.bs.ClusterBytes(), EntriesOf(root, chain);
    root.Shapes();
    NonEmptyChain(fs.fat, chain);
    var filled := IsFilled(root, f.sfn, own);
    if filled {
      return Err(DirectoryNotEmpty);
    }
    ListedEntry(fs, size, chain, l, m', f.last.index);
    EraseRemovesOne(s, l);
    EraseKeepsWhole(s, l);
    Detach(root, f, l, chain, m, m', own);
    ghost var fs1 := root.State();
    ErasedSame(s, EntriesOf(root, chain), l.first, l.last);
    EraseBlock(root, f.first, f.last, chain, m, l.first, m', l.last);
    KeptByBoth(fs, fs1, root.State(), chain, own);
    return Ok(());
  }

  lemma {:induction false} KeptByBoth(fs: Fs, fs1: Fs, fs2: Fs, chain: seq<nat>, own: seq<nat>)
    requires chain != [] && |fs1.fat| == |fs.fat| == |fs.data| == |fs1.data|
    requires forall k :: 0 <= k < |fs.fat| ==> fs1.fat[k] == if k in own then Unused else fs.fat[k]
    requires forall k :: 0 <= k < |fs.data| && k !in chain ==> fs1.data[k] == fs.data[k]
    requires Undisturbed(fs1, fs2, chain, chain, Slot(chain[0], 0)) && fs2.fat == fs1.fat
    ensures OthersKept(fs, fs2, chain + own)
  {
    forall k | 2 <= k < |fs.fat| && !fs.fat[k].Unused? && k !in chain + own
      ensures fs2.fat[k] == fs.fat[k] && fs2.data[k] == fs.data[k]
    {
      assert k !in chain && k !in own && chain[0] in chain;
    }
  }

  // ---- renaming ----

  /** The entries under a new name keep cluster, size and attributes. */
  lemma {:induction false} RenamedBlock(name: D.Name, sfn: D.SfnEntry) returns (shown: D.Name, e: D.SfnEntry)
    requires LfnSequence(name, sfn).Some? && !sfn.IsVolumeId()
    ensures AllValid(LfnSequence(name, sfn).value) && IsBlock(LfnSequence(name, sfn).value, shown, e)
    ensures shown == name <==> ReadsBack(name)
    ensures e == sfn.(name := e.name, ntRes := e.ntRes)
    ensures forall i :: 0 <= i < |LfnSequence(name, sfn).value| ==>
              D.Decode(D.Encode(LfnSequence(name, sfn).value[i])) == LfnSequence(name, sfn).value[i]
  {
    hide LfnSequence, D.Encode, D.Decode, ReadsBack, Feed, Joined;
    e := SequenceEnds(name, sfn);
    shown := SequenceIsBlock(name, sfn, e);
    assert Edited(name, sfn, e) == LfnSequence(name, sfn).value;
  }

  /** File::mv within a directory, to another name. On success the listing has the new name in place of
      the old one, for the same cluster and size. The old entries are erased first: the file is lost exactly
      when what is left after that, and the free clusters, have no place for the new ones. */
  method Rename(root: Root, first: nat, f: Found, name: D.Name, ghost l: Listed, ghost chain: seq<nat>, ghost m: nat, ghost m': nat)
    returns (r: Result<(), CreateError>, ghost chain': seq<nat>, ghost more: seq<Listed>)
    requires IsDir(root, chain) && chain[0] == first && Whole(EntriesOf(root, chain))
    requires Files(EntriesOf(root, chain)).Some? && l in Files(EntriesOf(root, chain)).value && Stands(root, chain, f, l, m, m')
    requires !f.sfn.IsVolumeId()
    modifies root.volume
    ensures IsDir(root, chain') && chain <= chain'
    ensures name == f.name ==> r.Ok? && root.State() == old(root.State()) && chain' == chain && more == []
    ensures Undisturbed(old(root.State()), root.State(), chain, chain', Slot(chain[0], 0))
    ensures r == Err(InvalidFileName) <==> name != f.name && LfnSequence(name, f.sfn).None?
    ensures r == Err(FileAlreadyExists) <==> name != f.name && LfnSequence(name, f.sfn).Some? && Named(Files(old(EntriesOf(root, chain))).value, name)
    ensures r.Err? && !r.error.NoSpace? ==> root.State() == old(root.State())
    ensures name != f.name && (r.Ok? || r.error.NoSpace?) ==>
              && LfnSequence(name, f.sfn).Some? && l.first <= l.last < |old(EntriesOf(root, chain))|
              && Adds(Files(Erased(old(EntriesOf(root, chain)), l.first, l.last + 1)), Files(old(EntriesOf(root, chain))), [l])
              && InsertsAs(Erased(old(EntriesOf(root, chain)), l.first, l.last + 1), EntriesOf(root, chain'),
                           LfnSequence(name, f.sfn).value, old(Places(root, chain)), name, r.Ok?, more)
    ensures more != [] ==> more[0].sfn == l.sfn.(name := more[0].sfn.name, ntRes := more[0].sfn.ntRes)
  {
    hide Root.Valid, Root.State, BootSector.Consistent, BootSector.ClusterCount, BootSector.ClusterBytes, Slots, IsChain,
      Locates, List, LfnSequence, Whole, Undisturbed, Named, ReadsBack, IsDots, Room, ToWrite, Overwritten, Adds,
      IsBlock, D.SfnEntry.IsVolumeId, Spare, InsertsAs, InsertEnd;
    ghost var fs, s := root.State(), EntriesOf(root, chain);
    root.Shapes();
    Untouched(fs, root.bs.ClusterBytes(), chain);
    NonEmptyChain(fs.fat, chain);
    chain', more := chain, [];
    if name == f.name {
      return Ok(()), chain', more;
    }
    var es := LfnSequence(name, f.sfn);
    if es.None? {
      return Err(InvalidFileName), chain', more;
    }
    var taken := NameTaken(root, first, name, chain);
    if taken {
      return Err(FileAlreadyExists), chain', more;
    }
    StillWhole(s, l);
    HasEntries(fs, root.bs, chain);
    EraseBlock(root, f.first, f.last, chain, m, l.first, m', l.last);
    ghost var fs1, s1 := root.State(), EntriesOf(root, chain);
    ghost var shown, e, k;
    shown, e := RenamedBlock(name, f.sfn);
    BlockFilled(es.value, shown, e);
    var t;
    ghost var places := Places(root, chain);
    t, chain', k := InsertEntries(root, first, es.value, chain);
    UndisturbedTwice(fs, fs1, root.State(), chain, chain, chain', Slot(chain[0], 0));
    more := InsertedAs(s1, EntriesOf(root, chain'), es.value, shown, e, k, t.Ok?, places, name);
    r := if t.Ok? then Ok(()) else Err(NoSpace);
  }

  lemma {:induction false} StillWhole(s: Entries, l: Listed)
    requires Whole(s) && Files(s).Some? && l in Files(s).value
    ensures l.first <= l.last < |s| && Whole(Erased(s, l.first, l.last + 1)) && Adds(Files(Erased(s, l.first, l.last + 1)), Files(s), [l])
  {
    hide Whole, List, End, Adds;
    EraseRemovesOne(s, l);
    EraseKeepsWhole(s, l);
  }
}
