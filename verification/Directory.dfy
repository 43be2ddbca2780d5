/** Directories, fs/fat.rs and DirEntries of fs/fat/low_level.rs. */
module Directories {
  import opened Bytes
  import opened FatEntries
  import opened BootSectors
  import opened LowLevel
  import opened Chains
  import opened FileContents
  import opened FatTable
  import opened Listings
  import opened Insertions
  import opened DirectorySlots
  import opened LongNames
  import opened Remainders
  import D = DirEntries

  lemma CapacityPositive(bs: BootSector)
    requires bs.Consistent()
    ensures bs.ClusterBytes() >= 512 && Capacity(bs) >= 16
  {
    hide BootSector.ClusterCount;
    ProductAtLeast(bs.sectorSize, bs.clusterSize);
  }

  /** BufferedCluster::dir_entries_count. */
  function Capacity(bs: BootSector): nat {
    bs.ClusterBytes() / 32
  }

  /** `chain` holds the clusters of a directory. */
  ghost predicate IsDir(root: Root, chain: seq<nat>)
    reads root, root.volume
  {
    root.Valid() && Readable(root.State(), root.bs.ClusterBytes()) && IsChain(root.State().fat, chain)
  }

  /** The entries of the directory. */
  ghost function EntriesOf(root: Root, chain: seq<nat>): (s: Entries)
    requires IsDir(root, chain)
    reads root, root.volume
  {
    Slots(root.State().data, chain)
  }

  /** How many entries fit into the free clusters. */
  ghost function Spare(bs: BootSector, fat: Fat): nat {
    Capacity(bs) * FreeCount(fat)
  }

  /** How many entries the directory has or can get. */
  ghost function Places(root: Root, chain: seq<nat>): nat
    requires IsDir(root, chain)
    reads root, root.volume
  {
    |EntriesOf(root, chain)| + Spare(root.bs, root.State().fat)
  }

  lemma {:induction false} SpareCounts(bs: BootSector, fat: Fat, fat': Fat)
    requires Capacity(bs) > 0
    ensures Spare(bs, fat) == 0 <==> FreeCount(fat) == 0
    ensures FreeCount(fat') == FreeCount(fat) - 1 ==> Spare(bs, fat') == Spare(bs, fat) - Capacity(bs)
  {
    hide FreeCount, Capacity;
    var e: int, u: int := Capacity(bs), FreeCount(fat);
    assert e * u == e * (u - 1) + e;
  }

  /** A cluster that is given to the directory is as many entries as it was spare ones. */
  lemma {:induction false} SlotsAdded(fs: Fs, fs': Fs, size: nat, chain: seq<nat>, c: nat)
    requires Shaped(fs, size) && Shaped(fs', size) && IsChain(fs.fat, chain) && IsChain(fs'.fat, chain + [c])
    ensures |Slots(fs'.data, chain + [c])| == |Slots(fs.data, chain)| + size / 32
  {
    SlotsCount(fs, size, chain);
    SlotsCount(fs', size, chain + [c]);
    var e, n := size / 32, |chain|;
    assert (n + 1) * e == n * e + e;
  }

  /** `slot` is where entry `at` of the directory lies, in its `m`-th cluster. */
  ghost predicate At(root: Root, chain: seq<nat>, slot: Slot, m: nat, at: nat)
    requires IsDir(root, chain)
    reads root, root.volume
  {
    && Locates(root.State(), root.bs.ClusterBytes(), chain, m, slot.index, at)
    && slot.cluster == chain[m]
  }

  method ReadEntry(root: Root, slot: Slot, ghost chain: seq<nat>, ghost m: nat, ghost at: nat) returns (e: D.DirEntry)
    requires IsDir(root, chain) && At(root, chain, slot, m, at) && slot.index < Capacity(root.bs)
    modifies root.volume
    ensures root.Valid() && root.State() == old(root.State())
    ensures IsDir(root, chain) && at < |EntriesOf(root, chain)| && e == EntriesOf(root, chain)[at]
  {
    hide Root.Valid, Root.State, BootSector.Consistent, BootSector.ClusterCount, BootSector.ClusterBytes, D.Decode,
      Slots;
    root.Shapes();
    SlotFound(root.State(), root.bs.ClusterBytes(), chain, m, slot.index, at);
    var b := root.ReadCluster(slot.cluster, slot.Begin(), 32);
    e := D.Decode(b);
  }

  /** The iterator DirEntries. It stops at the terminal. */
  class EntryCursor {
    const root: Root
    var cursor: Option<Slot>
    ghost const chain: seq<nat>
    ghost var m: nat
    ghost var at: nat

    ghost predicate Valid()
      reads this, root, root.volume
    {
      IsDir(root, chain) && (cursor.Some? ==> At(root, chain, cursor.value, m, at))
    }

    constructor (root: Root, first: nat, ghost chain: seq<nat>)
      requires IsDir(root, chain) && chain[0] == first
      ensures Valid() && this.root == root && this.chain == chain && cursor == Some(Slot(first, 0)) && at == 0 && m == 0
    {
      this.root := root;
      this.chain := chain;
      cursor := Some(Slot(first, 0));
      m, at := 0, 0;
    }

    method Next() returns (r: Option<(Slot, D.DirEntry)>)
      requires Valid()
      modifies this, root.volume
      ensures Valid() && root.State() == old(root.State())
      ensures r.None? ==> cursor.None? && at == old(at) && (old(cursor).Some? ==> at == |EntriesOf(root, chain)|)
      ensures r.Some? ==>
                && old(cursor).Some? && at == old(at) + 1 <= |EntriesOf(root, chain)|
                && At(root, chain, r.value.0, m, at - 1) && r.value.0.index < Capacity(root.bs)
                && r.value.1 == EntriesOf(root, chain)[at - 1]
                && (cursor.Some? <==> !r.value.1.UnusedTerminal?)
      decreases cursor.Some?, |chain| - m
    {
      hide Root.Valid, Root.State, BootSector.Consistent, BootSector.ClusterCount, BootSector.ClusterBytes, Slots;
      if cursor.None? {
        return None;
      }
      var c := cursor.value;
      cursor := None;
      if c.index < Capacity(root.bs) {
        var e := ReadEntry(root, c, chain, m, at);
        at := at + 1;
        if !e.UnusedTerminal? {
          cursor := Some(Slot(c.cluster, c.index + 1));
        }
        return Some((c, e));
      }
      root.Shapes();
      CapacityPositive(root.bs);
      NextCluster(root.State(), root.bs.ClusterBytes(), chain, m, at);
      var n := FatTable.Next(root, c.cluster);
      if n.None? {
        return None;
      }
      m := m + 1;
      cursor := Some(Slot(n.value, 0));
      r := Next();
    }
  }

  /** The search of Dir::insert_dir_entries. */
  method FindRoom(root: Root, first: nat, need: nat, ghost chain: seq<nat>)
    returns (start: Slot, len: nat, ghost m: nat)
    requires IsDir(root, chain) && chain[0] == first && need > 0
    modifies root.volume
    ensures IsDir(root, chain) && root.State() == old(root.State())
    ensures At(root, chain, start, m, Room(EntriesOf(root, chain), need).0) && start.index <= Capacity(root.bs)
    ensures len == Room(EntriesOf(root, chain), need).1
  {
    hide Root.Valid, Root.State, BootSector.Consistent, BootSector.ClusterCount, BootSector.ClusterBytes, Slots,
      Locates, IsChain;
    start, len, m := Slot(first, 0), 0, 0;
    ghost var s := EntriesOf(root, chain);
    ghost var p: nat := 0;
    var entries := new EntryCursor(root, first, chain);
    while true
      invariant entries.Valid() && entries.cursor.Some? && entries.root == root && entries.chain == chain
      invariant root.State() == old(root.State())
      invariant At(root, chain, start, m, p) && start.index <= Capacity(root.bs) && entries.at <= |s|
      invariant Room(s, need) == Search(s, need, entries.at, p, len) && len < need
      decreases |s| - entries.at
    {
      var r := entries.Next();
      if r.None? {
        break;
      }
      var (slot, e) := r.value;
      match e {
        case Unused =>
          if len == 0 {
            start, m, p := slot, entries.m, entries.at - 1;
          }
          len := len + 1;
          if len == need {
            break;
          }
        case UnusedTerminal =>
          if len == 0 {
            start, m, p := slot, entries.m, entries.at - 1;
          }
          break;
        case _ =>
          len := 0;
      }
    }
  }

  lemma {:induction false} StoreUndisturbed(fs: Fs, size: nat, chain: seq<nat>, m: nat, off: nat, b: seq<byte>)
    requires Readable(fs, size) && IsChain(fs.fat, chain) && m < |chain| && off + |b| <= size
    ensures var fs' := fs.Store(chain[m], off, b);
            Undisturbed(fs, fs', chain, chain, Slot(chain[0], 0)) && Readable(fs', size) && IsChain(fs'.fat, chain)
  {
    assert chain[m] in chain;
  }

  /** A directory grows by a cluster with arbitrary entries. */
  lemma {:induction false} GrowDirectory(fs: Fs, size: nat, chain: seq<nat>, c: nat, at: nat)
    requires chain != [] && Locates(fs, size, chain, |chain| - 1, size / 32, at)
    requires IsCluster(fs.fat, c) && fs.fat[c].Unused?
    ensures var fs' := fs.(fat := fs.fat[c := UsedEoc][chain[|chain| - 1] := UsedChained(c)]);
            && Undisturbed(fs, fs', chain, chain + [c], Slot(chain[0], 0)) && Readable(fs', size) && IsChain(fs'.fat, chain + [c])
            && Locates(fs', size, chain + [c], |chain|, 0, at)
            && Slots(fs.data, chain) <= Slots(fs.data, chain + [c]) && at == |Slots(fs.data, chain)|
  {
    hide ClusterEntries;
    assert chain[|chain| - 1] in chain;
    ChainExtends(fs.fat, chain, c);
    NextCluster(fs, size, chain, |chain| - 1, at);
    assert (chain + [c])[..|chain|] == chain;
    SlotsPrefix(fs.data, chain + [c], |chain|);
  }

  /** Where the next entry goes: in the next cluster of the chain if this one is at its end. */
  method Advance(root: Root, slot: Slot, ghost chain: seq<nat>, ghost m: nat, ghost at: nat)
    returns (r: Result<Slot, Error>, ghost chain': seq<nat>, ghost m': nat)
    requires IsDir(root, chain) && At(root, chain, slot, m, at)
    modifies root.volume
    ensures IsDir(root, chain') && chain <= chain'
    ensures Undisturbed(old(root.State()), root.State(), chain, chain', Slot(chain[0], 0))
    ensures match r
            case Ok(next) =>
              && At(root, chain', next, m', at) && next.index < Capacity(root.bs)
              && at <= |old(EntriesOf(root, chain))| && old(EntriesOf(root, chain)) <= EntriesOf(root, chain')
              && (at < |old(EntriesOf(root, chain))| ==> EntriesOf(root, chain') == old(EntriesOf(root, chain)))
            case Err(_) => root.State() == old(root.State()) && chain' == chain && at == |EntriesOf(root, chain)|
    ensures r.Err? <==> at == old(Places(root, chain))
    ensures Places(root, chain') == old(Places(root, chain))
  {
    hide Root.Valid, Root.State, BootSector.Consistent, BootSector.ClusterCount, BootSector.ClusterBytes, Slots,
      Undisturbed, IsChain, Spare;
    ghost var fs, size := root.State(), root.bs.ClusterBytes();
    root.Shapes();
    Untouched(fs, size, chain);
    SlotBound(fs, size, chain, m, slot.index, at);
    chain', m' := chain, m;
    if slot.index < Capacity(root.bs) {
      return Ok(slot), chain', m';
    }
    CapacityPositive(root.bs);
    NextCluster(fs, size, chain, m, at);
    PrepareExtends(fs.fat, chain);
    PrepareCounts(fs.fat, chain);
    var t := Prepare(root, slot.cluster);
    SpareCounts(root.bs, fs.fat, root.State().fat);
    if t.Err? {
      return Err(t.error), chain', m';
    }
    if m + 1 == |chain| {
      GrowDirectory(fs, size, chain, t.value, at);
      SlotsAdded(fs, root.State(), size, chain, t.value);
      chain' := chain + [t.value];
    } else {
      SlotBound(fs, size, chain, m + 1, 0, at);
    }
    m' := m + 1;
    r := Ok(Slot(t.value, 0));
  }

  /** Writes one entry in its place. */
  method WriteEntry(root: Root, slot: Slot, e: D.DirEntry, ghost chain: seq<nat>, ghost m: nat, ghost at: nat)
    requires IsDir(root, chain) && At(root, chain, slot, m, at) && slot.index < Capacity(root.bs)
    requires e.Valid() && D.Decode(D.Encode(e)) == e
    modifies root.volume
    ensures IsDir(root, chain) && root.State().fat == old(root.State().fat) && at < |old(EntriesOf(root, chain))|
    ensures EntriesOf(root, chain) == old(EntriesOf(root, chain))[at := e]
    ensures At(root, chain, Slot(slot.cluster, slot.index + 1), m, at + 1)
    ensures Undisturbed(old(root.State()), root.State(), chain, chain, Slot(chain[0], 0))
  {
    hide Root.Valid, Root.State, BootSector.Consistent, BootSector.ClusterCount, BootSector.ClusterBytes, D.Decode,
      D.Encode, Slots, Undisturbed, IsChain;
    ghost var fs, size := root.State(), root.bs.ClusterBytes();
    root.Shapes();
    SlotBound(fs, size, chain, m, slot.index, at);
    SlotStored(fs, size, chain, m, slot.index, at, e);
    StoreUndisturbed(fs, size, chain, m, slot.Begin(), D.Encode(e));
    root.WriteCluster(slot.cluster, slot.Begin(), D.Encode(e));
  }

  /** Writes one entry, where `Advance` says. */
  method WriteNext(root: Root, slot: Slot, e: D.DirEntry, ghost chain: seq<nat>, ghost m: nat, ghost at: nat)
    returns (r: Result<Slot, Error>, ghost chain': seq<nat>, ghost m': nat)
    requires IsDir(root, chain) && At(root, chain, slot, m, at) && e.Valid() && D.Decode(D.Encode(e)) == e
    modifies root.volume
    ensures IsDir(root, chain') && chain <= chain'
    ensures Undisturbed(old(root.State()), root.State(), chain, chain', Slot(chain[0], 0))
    ensures match r
            case Ok(next) => At(root, chain', next, m', at + 1) && Overwritten(old(EntriesOf(root, chain)), EntriesOf(root, chain'), at, [e])
            case Err(_) => root.State() == old(root.State()) && chain' == chain && at == |EntriesOf(root, chain)|
    ensures r.Err? <==> at == old(Places(root, chain))
    ensures Places(root, chain') == old(Places(root, chain))
  {
    hide Root.Valid, Root.State, BootSector.Consistent, BootSector.ClusterCount, BootSector.ClusterBytes, D.Decode,
      D.Encode, Slots, Undisturbed, IsChain, Spare;
    ghost var fs, size := root.State(), root.bs.ClusterBytes();
    root.Shapes();
    r, chain', m' := Advance(root, slot, chain, m, at);
    if r.Err? {
      return;
    }
    var c := r.value;
    ghost var fs1 := root.State();
    FirstCluster(fs.fat, chain, chain');
    WriteEntry(root, c, e, chain', m', at);
    UndisturbedTwice(fs, fs1, root.State(), chain, chain', chain', Slot(chain[0], 0));
    r := Ok(Slot(c.cluster, c.index + 1));
  }

  lemma {:induction false} FirstCluster(fat: Fat, chain: seq<nat>, chain': seq<nat>)
    requires IsChain(fat, chain) && chain <= chain'
    ensures chain != [] && chain' != [] && chain'[0] == chain[0]
  {
  }

  lemma {:induction false} Untouched(fs: Fs, size: nat, chain: seq<nat>)
    requires Shaped(fs, size) && IsChain(fs.fat, chain)
    ensures Undisturbed(fs, fs, chain, chain, Slot(chain[0], 0))
  {
  }

  /** Writes entries one after the other, up to the first failure. */
  method WriteEntries(root: Root, start: Slot, ws: seq<D.DirEntry>, ghost chain: seq<nat>, ghost m: nat, ghost p: nat)
    returns (r: Result<(), Error>, ghost chain': seq<nat>, ghost k: nat)
    requires IsDir(root, chain) && At(root, chain, start, m, p) && AllValid(ws)
    requires forall i :: 0 <= i < |ws| ==> D.Decode(D.Encode(ws[i])) == ws[i]
    modifies root.volume
    ensures IsDir(root, chain') && chain <= chain'
    ensures Undisturbed(old(root.State()), root.State(), chain, chain', Slot(chain[0], 0))
    ensures k <= |ws| && Overwritten(old(EntriesOf(root, chain)), EntriesOf(root, chain'), p, ws[..k])
    ensures r.Ok? ==> k == |ws|
    ensures r.Err? ==> k < |ws| && |EntriesOf(root, chain')| == p + k == old(Places(root, chain))
    ensures r.Ok? <==> p + |ws| <= old(Places(root, chain))
    ensures Places(root, chain') == old(Places(root, chain))
  {
    hide Root.Valid, Root.State, BootSector.Consistent, BootSector.ClusterCount, BootSector.ClusterBytes, D.Decode,
      D.Encode, Slots, Undisturbed, IsChain, Locates, Spare;
    ghost var fs, size, s := root.State(), root.bs.ClusterBytes(), EntriesOf(root, chain);
    root.Shapes();
    Untouched(fs, size, chain);
    SlotBound(fs, size, chain, m, start.index, p);
    FirstCluster(fs.fat, chain, chain);
    chain', k := chain, 0;
    ghost var m' := m;
    var c := start;
    for i := 0 to |ws|
      invariant IsDir(root, chain') && chain <= chain' && k == i
      invariant Undisturbed(fs, root.State(), chain, chain', Slot(chain[0], 0))
      invariant At(root, chain', c, m', p + i) && Places(root, chain') == old(Places(root, chain))
      invariant Overwritten(s, EntriesOf(root, chain'), p, ws[..i])
    {
      ghost var fs1, was, t := root.State(), chain', EntriesOf(root, chain');
      var n;
      n, chain', m' := WriteNext(root, c, ws[i], was, m', p + i);
      FirstCluster(fs.fat, chain, was);
      UndisturbedTwice(fs, fs1, root.State(), chain, was, chain', Slot(chain[0], 0));
      if n.Err? {
        return Err(n.error), chain', k;
      }
      OverwrittenMore(s, t, EntriesOf(root, chain'), p, ws[..i], ws[i]);
      assert ws[..i] + [ws[i]] == ws[..i + 1];
      c := n.value;
      k := k + 1;
    }
    assert ws[..|ws|] == ws;
    return Ok(()), chain', k;
  }

  /** Dir::insert_dir_entries. A failure for want of clusters leaves the first `k` entries written. */
  method InsertEntries(root: Root, first: nat, es: seq<D.DirEntry>, ghost chain: seq<nat>)
    returns (r: Result<(), Error>, ghost chain': seq<nat>, ghost k: nat)
    requires IsDir(root, chain) && chain[0] == first && AllValid(es)
    requires forall i :: 0 <= i < |es| ==> D.Decode(D.Encode(es[i])) == es[i]
    modifies root.volume
    ensures IsDir(root, chain') && chain <= chain'
    ensures Undisturbed(old(root.State()), root.State(), chain, chain', Slot(chain[0], 0))
    ensures var s, t := old(EntriesOf(root, chain)), EntriesOf(root, chain');
            var p, ws := Room(s, |es|).0, ToWrite(s, es);
            if es == [] then r.Ok? && root.State() == old(root.State()) else
            && k <= |ws| && Overwritten(s, t, p, ws[..k])
            && (r.Ok? ==> k == |ws|)
            && (r.Err? ==> k < |ws| && |t| == p + k == old(Places(root, chain)))
            && (r.Ok? <==> InsertEnd(s, |es|) <= old(Places(root, chain)))
    ensures Places(root, chain') == old(Places(root, chain))
  {
    hide Root.Valid, Root.State, BootSector.Consistent, BootSector.ClusterCount, BootSector.ClusterBytes, D.Decode,
      D.Encode, Slots, Undisturbed, IsChain, Locates, Search, Spare;
    if es == [] {
      root.Shapes();
      Untouched(root.State(), root.bs.ClusterBytes(), chain);
      return Ok(()), chain, 0;
    }
    var start, len;
    ghost var m;
    ghost var s := EntriesOf(root, chain);
    start, len, m := FindRoom(root, first, |es|, chain);
    var terminal := if len != |es| then [D.UnusedTerminal] else [];
    D.EntryRoundTrip(D.UnusedTerminal);
    var ws := es + terminal;
    WritesToEnd(s, es);
    r, chain', k := WriteEntries(root, start, ws, chain, m, Room(s, |es|).0);
  }

  /** Makes the entries `i` to `j` of one cluster of the directory unused. */
  method EraseWithin(root: Root, c: nat, i: nat, j: nat, ghost chain: seq<nat>, ghost m: nat, ghost at: nat)
    requires IsDir(root, chain) && At(root, chain, Slot(c, i), m, at) && i <= j < Capacity(root.bs)
    modifies root.volume
    ensures IsDir(root, chain) && root.State().fat == old(root.State().fat)
    ensures At(root, chain, Slot(c, j + 1), m, at + (j + 1 - i)) && at + (j + 1 - i) <= |old(EntriesOf(root, chain))|
    ensures EntriesOf(root, chain) == Erased(old(EntriesOf(root, chain)), at, at + (j + 1 - i))
    ensures Undisturbed(old(root.State()), root.State(), chain, chain, Slot(chain[0], 0))
  {
    hide Root.Valid, Root.State, BootSector.Consistent, BootSector.ClusterCount, BootSector.ClusterBytes, D.Decode,
      D.Encode, Slots, Undisturbed, IsChain;
    ghost var fs, size, s := root.State(), root.bs.ClusterBytes(), EntriesOf(root, chain);
    root.Shapes();
    Untouched(fs, size, chain);
    SlotBound(fs, size, chain, m, i, at);
    FirstCluster(fs.fat, chain, chain);
    D.EntryRoundTrip(D.Unused);
    for k := i to j + 1
      invariant IsDir(root, chain) && root.State().fat == fs.fat
      invariant At(root, chain, Slot(c, k), m, at + (k - i)) && at + (k - i) <= |s|
      invariant EntriesOf(root, chain) == Erased(s, at, at + (k - i))
      invariant Undisturbed(fs, root.State(), chain, chain, Slot(chain[0], 0))
    {
      ghost var fs1 := root.State();
      WriteEntry(root, Slot(c, k), D.Unused, chain, m, at + (k - i));
      UndisturbedTwice(fs, fs1, root.State(), chain, chain, chain, Slot(chain[0], 0));
    }
  }

  /** The cluster of an entry before entry `q` is not behind the cluster of `q`. */
  lemma {:induction false} Ordered(fs: Fs, size: nat, chain: seq<nat>, k: nat, n: nat, at: nat, m: nat, n': nat, q: nat)
    requires Locates(fs, size, chain, k, n, at) && Locates(fs, size, chain, m, n', q) && at <= q && n' < size / 32
    ensures k <= m && (k == m ==> q - at == n' - n) && (chain[k] == chain[m] ==> k == m)
    ensures m < |chain| && IsCluster(fs.fat, chain[k])
  {
    hide Slots;
    SlotOrder(fs, size, chain, k, n, at, m, n', q);
    SlotOrder(fs, size, chain, m, n', q, k, n, at);
    ChainsAreAcyclic(fs.fat, chain);
  }

  /** Makes the entries from `first` to `last` unused, as File::remove and File::mv do over
      File::dir_entry_locations. */
  method EraseBlock(root: Root, first: Slot, last: Slot, ghost chain: seq<nat>, ghost m: nat, ghost p: nat,
      ghost m': nat, ghost q: nat)
    requires IsDir(root, chain) && p <= q
    requires At(root, chain, first, m, p) && first.index < Capacity(root.bs)
    requires At(root, chain, last, m', q) && last.index < Capacity(root.bs)
    modifies root.volume
    ensures IsDir(root, chain) && q < |old(EntriesOf(root, chain))|
    ensures EntriesOf(root, chain) == Erased(old(EntriesOf(root, chain)), p, q + 1)
    ensures root.State().fat == old(root.State().fat)
    ensures Undisturbed(old(root.State()), root.State(), chain, chain, Slot(chain[0], 0))
  {
    hide Root.Valid, Root.State, BootSector.Consistent, BootSector.ClusterCount, BootSector.ClusterBytes, D.Decode,
      D.Encode, Slots, Undisturbed, IsChain, Locates;
    ghost var fs, size, s := root.State(), root.bs.ClusterBytes(), EntriesOf(root, chain);
    root.Shapes();
    Untouched(fs, size, chain);
    SlotBound(fs, size, chain, m', last.index, q);
    SlotBound(fs, size, chain, m, first.index, p);
    FirstCluster(fs.fat, chain, chain);
    ChainIsClosed(fs.fat, chain);
    ChainsAreAcyclic(fs.fat, chain);
    var next := Some(first.cluster);
    ghost var k, at := m, p;
    Ordered(fs, size, chain, m, first.index, p, m', last.index, q);
    while next.Some?
      invariant IsDir(root, chain) && root.State().fat == fs.fat
      invariant Undisturbed(fs, root.State(), chain, chain, Slot(chain[0], 0))
      invariant p <= at <= |s| && EntriesOf(root, chain) == Erased(s, p, at)
      invariant At(root, chain, last, m', q)
      invariant match next
                case Some(c) => m <= k && at <= q && At(root, chain, Slot(c, if k == m then first.index else 0), k, at)
                case None => at == q + 1
      decreases if next.Some? then |chain| - k else -1
    {
      ghost var fs1 := root.State();
      var c := next.value;
      Ordered(fs1, size, chain, k, if k == m then first.index else 0, at, m', last.index, q);
      var i := if c == first.cluster then first.index else 0;
      var j := if c == last.cluster then last.index else Capacity(root.bs) - 1;
      EraseWithin(root, c, i, j, chain, k, at);
      UndisturbedTwice(fs, fs1, root.State(), chain, chain, chain, Slot(chain[0], 0));
      LocatesStays(fs1, root.State(), size, chain, m', last.index, q);
      at := at + (j + 1 - i);
      if c == last.cluster {
        next := None;
      } else {
        NextCluster(root.State(), size, chain, k, at);
        SlotOrder(root.State(), size, chain, k, j + 1, at, m', last.index, q);
        next := FatTable.Next(root, c);
        k := k + 1;
      }
    }
  }

  /** A file of a directory, with the places of its first and its last entry. */
  datatype Found = Found(name: D.Name, sfn: D.SfnEntry, first: Slot, last: Slot)

  /** `f` stands for the listed file `l`, which begins in the `m`-th cluster and ends in the `m'`-th. */
  ghost predicate Stands(root: Root, chain: seq<nat>, f: Found, l: Listed, m: nat, m': nat)
    requires IsDir(root, chain)
    reads root, root.volume
  {
    && f.name == l.name && f.sfn == l.sfn
    && At(root, chain, f.first, m, l.first) && f.first.index < Capacity(root.bs)
    && At(root, chain, f.last, m', l.last) && f.last.index < Capacity(root.bs)
  }

  /** What an iterator over the files still has to give. */
  ghost function Rest(entries: EntryCursor): Option<seq<Listed>>
    requires entries.Valid() && (entries.cursor.Some? ==> entries.at <= |EntriesOf(entries.root, entries.chain)|)
    reads entries, entries.root, entries.root.volume
  {
    if entries.cursor.None? then Some([]) else List(EntriesOf(entries.root, entries.chain), Init, entries.at, entries.at)
  }

  /** DirIter::next, on directories whose listing comes to an end. */
  method NextFile(entries: EntryCursor) returns (r: Option<Found>, ghost l: Listed, ghost m: nat, ghost m': nat)
    requires entries.Valid() && (entries.cursor.Some? ==> entries.at <= |EntriesOf(entries.root, entries.chain)|)
    requires Rest(entries).Some?
    modifies entries, entries.root.volume
    ensures entries.Valid() && entries.root.State() == old(entries.root.State())
    ensures entries.cursor.Some? ==> entries.at <= |EntriesOf(entries.root, entries.chain)|
    ensures r.None? ==> old(Rest(entries)) == Some([])
    ensures r.Some? ==> old(Rest(entries)) == Plus([l], Rest(entries)) && Stands(entries.root, entries.chain, r.value, l, m, m')
    ensures r.Some? ==> old(entries.cursor).Some? && old(entries.at) < entries.at
    ensures r.Some? && entries.cursor.None? ==> entries.at == |EntriesOf(entries.root, entries.chain)|
    decreases |EntriesOf(entries.root, entries.chain)| - entries.at
  {
    hide Root.Valid, Root.State, BootSector.Consistent, BootSector.ClusterCount, BootSector.ClusterBytes, Slots,
      IsChain, Locates, Read;
    var root := entries.root;
    ghost var s, all, old_at := EntriesOf(root, entries.chain), Rest(entries), entries.at;
    l, m, m' := Listed([], D.SfnEntry([], 0, 0, 0, 0, 0, 0, 0, 0, 0, 0, 0), 0, 0), 0, 0;
    var t := entries.Next();
    if t.None? {
      return None, l, m, m';
    }
    var first, last, entry, reader := t.value.0, t.value.0, t.value.1, Init;
    ghost var start: nat := entries.at - 1;
    m, m' := entries.m, entries.m;
    while true
      invariant entries.Valid() && root.State() == old(root.State()) && old_at < entries.at <= |s|
      invariant entry == s[entries.at - 1] && (entries.cursor.Some? <==> !entry.UnusedTerminal?)
      invariant start < entries.at && List(s, reader, start, entries.at - 1) == all
      invariant At(root, entries.chain, first, m, start) && first.index < Capacity(root.bs)
      invariant At(root, entries.chain, last, m', entries.at - 1) && last.index < Capacity(root.bs)
      decreases |s| - entries.at, if reader.Init? then 0 else 1
    {
      ReadsSfn(reader, entry);
      match Read(reader, entry) {
        case (_, Meta(e)) =>
          if e.UnusedTerminal? {
            return None, l, m, m';
          }
          r, l, m, m' := NextFile(entries);
          return;
        case (reader', Incomplete) =>
          assert List(s, reader', start, entries.at) == all;
          t := entries.Next();
          if t.None? {
            return None, l, m, m';
          }
          reader, last, entry := reader', t.value.0, t.value.1;
          m' := entries.m;
        case (_, Complete(name, sfn)) =>
          if IsDots(name) {
            PlusNothing(List(s, Init, entries.at, entries.at));
            r, l, m, m' := NextFile(entries);
            return;
          }
          l := Listed(name, sfn, start, entries.at - 1);
          return Some(Found(name, sfn, first, last)), l, m, m';
        case (_, Broken(_)) =>
          reader, first := Init, last;
          start, m := entries.at - 1, m';
        case (_, Panic) =>
          assert false;
      }
    }
  }

  /** Some file of the listing has the name. */
  predicate Named(files: seq<Listed>, name: D.Name) {
    exists i :: 0 <= i < |files| && files[i].name == name
  }

  /** Dir::check_name_conflict. */
  method NameTaken(root: Root, first: nat, name: D.Name, ghost chain: seq<nat>) returns (taken: bool)
    requires IsDir(root, chain) && chain[0] == first && Files(EntriesOf(root, chain)).Some?
    modifies root.volume
    ensures IsDir(root, chain) && root.State() == old(root.State())
    ensures taken <==> Named(Files(EntriesOf(root, chain)).value, name)
  {
    hide Root.Valid, Root.State, BootSector.Consistent, BootSector.ClusterCount, BootSector.ClusterBytes, Slots,
      IsChain, Locates, List, Stands;
    var entries := new EntryCursor(root, first, chain);
    ghost var s := EntriesOf(root, chain);
    ghost var seen: seq<Listed> := [];
    taken := false;
    PlusNothing(Files(s));
    while !taken
      invariant entries.Valid() && entries.root == root && entries.chain == chain && root.State() == old(root.State())
      invariant entries.cursor.Some? ==> entries.at <= |s|
      invariant entries.cursor.None? ==> entries.at == |s|
      invariant entries.at <= |s| && Rest(entries).Some? && Files(s) == Plus(seen, Rest(entries))
      invariant taken <==> Named(seen, name)
      decreases !taken, |s| - entries.at
    {
      var r;
      ghost var l, m, m';
      ghost var before := Rest(entries);
      r, l, m, m' := NextFile(entries);
      if r.None? {
        assert seen + [] == seen;
        return;
      }
      FoundName(root, chain, r.value, l, m, m');
      seen := SeenMore(seen, l, Rest(entries), name);
      taken := r.value.name == name;
    }
    NamedPrefix(seen, Rest(entries).value, name);
  }

  lemma FoundName(root: Root, chain: seq<nat>, f: Found, l: Listed, m: nat, m': nat)
    requires IsDir(root, chain) && Stands(root, chain, f, l, m, m')
    ensures f.name == l.name
  {
  }

  lemma {:induction false} SeenMore(seen: seq<Listed>, l: Listed, rest: Option<seq<Listed>>,
      name: D.Name) returns (more: seq<Listed>)
    requires !Named(seen, name)
    ensures more == seen + [l] && Plus(more, rest) == Plus(seen, Plus([l], rest)) && (Named(more, name) <==> l.name == name)
  {
    more := seen + [l];
    assert more[|seen|] == l;
    if rest.Some? {
      assert more + rest.value == seen + ([l] + rest.value);
    }
  }

  lemma {:induction false} NamedPrefix(a: seq<Listed>, b: seq<Listed>, name: D.Name)
    requires Named(a, name)
    ensures Named(a + b, name)
  {
    var i :| 0 <= i < |a| && a[i].name == name;
    assert (a + b)[i].name == name;
  }

  datatype CreateError = NoSpace | FileAlreadyExists | InvalidFileName

  /** SfnEntry::new. */
  const NEW_ENTRY := D.SfnEntry(seq(11, _ => SPACE), 0, 0, 0, 0, 0, 0, 0, 0, 0, 0, 0)

  /** A directory with whole names and a terminal. */
  ghost predicate WellFormed(s: Entries) {
    Whole(s) && End(s) < |s|
  }

  /** The entries made for a new, empty file. */
  lemma {:induction false} NewBlock(name: D.Name) returns (shown: D.Name, e: D.SfnEntry)
    requires LfnSequence(name, NEW_ENTRY).Some?
    ensures AllValid(LfnSequence(name, NEW_ENTRY).value) && IsBlock(LfnSequence(name, NEW_ENTRY).value, shown, e)
    ensures LfnSequence(name, NEW_ENTRY).value != []
    ensures shown == name <==> ReadsBack(name)
    ensures e.Cluster() == None && e.fileSize == 0 && !e.IsDirectory()
    ensures forall i :: 0 <= i < |LfnSequence(name, NEW_ENTRY).value| ==>
              D.Decode(D.Encode(LfnSequence(name, NEW_ENTRY).value[i])) == LfnSequence(name, NEW_ENTRY).value[i]
  {
    hide LfnSequence, D.Encode, D.Decode, ReadsBack, Feed, Joined;
    e := SequenceEnds(name, NEW_ENTRY);
    shown := SequenceIsBlock(name, NEW_ENTRY, e);
    assert Edited(name, NEW_ENTRY, e) == LfnSequence(name, NEW_ENTRY).value;
  }

  /** The listing after an insertion, whether or not it came to its end. */
  lemma {:induction false} Inserted(s: Entries, t: Entries, es: Entries, shown: D.Name, e: D.SfnEntry, k: nat,
      ok: bool) returns (more: seq<Listed>)
    requires Whole(s) && CanInsert(s, |es|) && IsBlock(es, shown, e)
    requires k <= |ToWrite(s, es)| && Overwritten(s, t, Room(s, |es|).0, ToWrite(s, es)[..k])
    requires if ok then k == |ToWrite(s, es)| else k < |ToWrite(s, es)| && |t| == Room(s, |es|).0 + k
    ensures Adds(Files(s), Files(t), more) && |more| <= 1
    ensures ok ==> Whole(t) && (End(s) < |s| ==> End(t) < |t|)
    ensures more == [] <==> IsDots(shown) || k < |es|
    ensures !ok ==> Jammed(t)
    ensures more != [] ==> more[0].name == shown && more[0].sfn == e
  {
    hide List, End, Whole, Room, Overwritten, IsBlock, IsDots, Run, Adds, Jammed;
    BlockFilled(es, shown, e);
    var p := Room(s, |es|).0;
    more := if IsDots(shown) then [] else [Listed(shown, e, p, p + |es| - 1)];
    if ok {
      assert ToWrite(s, es)[..k] == ToWrite(s, es);
      InsertAddsOne(s, t, es, shown, e);
      InsertKeepsWhole(s, t, es, shown, e);
      InsertedEnd(s, t, es, shown, e);
    } else {
      FailedInsert(s, t, es, shown, e, k);
      if k < |es| {
        more := [];
        AddsNothing(Files(s));
      } else {
        WrittenLength(s, es);
      }
    }
  }

  lemma WrittenLength(s: Entries, es: Entries)
    ensures |es| <= |ToWrite(s, es)| <= |es| + 1
  {
    hide Room;
  }

  lemma {:induction false} AddsNothing(a: Option<seq<Listed>>)
    ensures Adds(a, a, [])
  {
    if a.Some? {
      assert a.value == a.value[..0] + [] + a.value[0..];
    }
  }

  /** What an insertion of `need` entries for `name` into free ones of `s` comes to: the file is listed exactly
      when there is a place for each entry. Without success the directory has lost its terminal. */
  ghost predicate ListsAs(s: Entries, t: Entries, need: nat, places: nat, name: D.Name, ok: bool, more: seq<Listed>) {
    && Adds(Files(s), Files(t), more) && |more| <= 1
    && (if ok then Whole(t) && (End(s) < |s| ==> End(t) < |t|) else Jammed(t))
    && (ReadsBack(name) && !IsDots(name) ==> (more == [] <==> Room(s, need).0 + need > places))
    && (more != [] ==> (more[0].name == name <==> ReadsBack(name)))
  }

  /** An entry in use is replaced by one of the new ones. */
  ghost predicate Clobbers(s: Entries, t: Entries, es: seq<D.DirEntry>) {
    exists j: nat :: Replaced(s, t, es, j)
  }

  ghost predicate Replaced(s: Entries, t: Entries, es: seq<D.DirEntry>, j: nat) {
    && Room(s, |es|).0 <= j < |s| <= |t| && !Free(s, j)
    && j - Room(s, |es|).0 < |ToWrite(s, es)| && t[j] == ToWrite(s, es)[j - Room(s, |es|).0]
  }

  /** What an insertion of `es` for `name` comes to: it succeeds exactly when there is a place for each entry and
      for the terminal it writes. It spares the entries in use exactly when the directory has a terminal, a run
      that is long enough, or a free entry at the very end. */
  ghost predicate InsertsAs(s: Entries, t: Entries, es: seq<D.DirEntry>, places: nat, name: D.Name, ok: bool, more: seq<Listed>) {
    && (ok <==> InsertEnd(s, |es|) <= places)
    && if CanInsert(s, |es|) then ListsAs(s, t, |es|, places, name, ok, more) else more == [] && Clobbers(s, t, es)
  }

  /** Dir::create_file: on success the listing has exactly one more file, of the given name unless
      that ends like padding or is a dot name; it fails for want of space exactly when the entries and the
      terminal do not fit into the directory and the free clusters. */
  method CreateFile(root: Root, first: nat, name: D.Name, ghost chain: seq<nat>)
    returns (r: Result<(), CreateError>, ghost chain': seq<nat>, ghost more: seq<Listed>)
    requires IsDir(root, chain) && chain[0] == first && Whole(EntriesOf(root, chain))
    modifies root.volume
    ensures IsDir(root, chain') && chain <= chain'
    ensures Undisturbed(old(root.State()), root.State(), chain, chain', Slot(chain[0], 0))
    ensures Files(old(EntriesOf(root, chain))).Some?
    ensures r == Err(FileAlreadyExists) <==> Named(Files(old(EntriesOf(root, chain))).value, name)
    ensures r == Err(InvalidFileName) <==> !Named(Files(old(EntriesOf(root, chain))).value, name) && LfnSequence(name, NEW_ENTRY).None?
    ensures r.Ok? || r.error.NoSpace? ==>
              && LfnSequence(name, NEW_ENTRY).Some?
              && InsertsAs(old(EntriesOf(root, chain)), EntriesOf(root, chain'), LfnSequence(name, NEW_ENTRY).value,
                           old(Places(root, chain)), name, r.Ok?, more)
    ensures more != [] ==> more[0].sfn.Cluster() == None && more[0].sfn.fileSize == 0 && !more[0].sfn.IsDirectory()
    ensures r.Err? && !r.error.NoSpace? ==> root.State() == old(root.State())
  {
    hide Root.Valid, Root.State, BootSector.Consistent, BootSector.ClusterCount, BootSector.ClusterBytes, Slots,
      IsChain, Locates, List, LfnSequence, Whole, End, Undisturbed, Named, ReadsBack, IsDots, Room, ToWrite,
      Overwritten, Adds, IsBlock, D.SfnEntry.Cluster, Spare, Jammed, InsertEnd, InsertsAs;
    ghost var s := EntriesOf(root, chain);
    root.Shapes();
    Untouched(root.State(), root.bs.ClusterBytes(), chain);
    WholeLists(s);
    HasEntries(root.State(), root.bs, chain);
    chain', more := chain, [];
    var taken := NameTaken(root, first, name, chain);
    if taken {
      return Err(FileAlreadyExists), chain', more;
    }
    var es := LfnSequence(name, NEW_ENTRY);
    if es.None? {
      return Err(InvalidFileName), chain', more;
    }
    var t;
    ghost var k;
    ghost var shown, e;
    shown, e := NewBlock(name);
    ghost var places := Places(root, chain);
    t, chain', k := InsertEntries(root, first, es.value, chain);
    more := InsertedAs(s, EntriesOf(root, chain'), es.value, shown, e, k, t.Ok?, places, name);
    r := if t.Ok? then Ok(()) else Err(NoSpace);
  }

  lemma {:induction false} InsertedAs(s: Entries, t: Entries, es: Entries, shown: D.Name, e: D.SfnEntry, k: nat,
      ok: bool, places: nat, name: D.Name) returns (more: seq<Listed>)
    requires Whole(s) && s != [] && IsBlock(es, shown, e) && (shown == name <==> ReadsBack(name))
    requires k <= |ToWrite(s, es)| && Overwritten(s, t, Room(s, |es|).0, ToWrite(s, es)[..k])
    requires if ok then k == |ToWrite(s, es)| else k < |ToWrite(s, es)| && |t| == Room(s, |es|).0 + k == places
    requires ok <==> InsertEnd(s, |es|) <= places
    ensures InsertsAs(s, t, es, places, name, ok, more)
    ensures more != [] ==> more[0].name == shown && more[0].sfn == e
  {
    hide Whole, End, IsBlock, ReadsBack, Overwritten, Room, ToWrite, InsertEnd, Adds, List, IsDots, Jammed, CanInsert, Clobbers;
    if CanInsert(s, |es|) {
      more := Inserted(s, t, es, shown, e, k, ok);
      WrittenPart(s, es, k, ok, places);
    } else {
      more := [];
      BlockFilled(es, shown, e);
      InsertClobbers(s, t, es, k, ok);
    }
  }

  lemma {:induction false} InsertClobbers(s: Entries, t: Entries, es: Entries, k: nat, ok: bool)
    requires !CanInsert(s, |es|) && s != [] && es != []
    requires k <= |ToWrite(s, es)| && Overwritten(s, t, Room(s, |es|).0, ToWrite(s, es)[..k])
    requires if ok then k == |ToWrite(s, es)| else |t| == Room(s, |es|).0 + k
    ensures Clobbers(s, t, es)
  {
    hide End, Search, CanInsert, ToWrite;
    InsertsIntoFree(s, es);
    var p, ws := Room(s, |es|).0, ToWrite(s, es);
    var j: nat :| p <= j < p + |ws| && j < |s| && !Free(s, j);
    assert t[p + (j - p)] == ws[..k][j - p];
    assert Replaced(s, t, es, j);
  }

  lemma {:induction false} HasEntries(fs: Fs, bs: BootSector, chain: seq<nat>)
    requires bs.Consistent() && Readable(fs, bs.ClusterBytes()) && IsChain(fs.fat, chain)
    ensures Slots(fs.data, chain) != []
  {
    hide BootSector.ClusterBytes, BootSector.Consistent;
    CapacityPositive(bs);
    SlotsCount(fs, bs.ClusterBytes(), chain);
    TimesMonotone(1, |chain|, bs.ClusterBytes() / 32);
  }

  /** How many entries an insertion writes. */
  lemma {:induction false} WrittenPart(s: Entries, es: seq<D.DirEntry>, k: nat, ok: bool, places: nat)
    requires ok <==> InsertEnd(s, |es|) <= places
    requires if ok then k == |ToWrite(s, es)| else Room(s, |es|).0 + k == places
    ensures k < |es| <==> Room(s, |es|).0 + |es| > places
  {
    hide Search;
    WritesToEnd(s, es);
  }

  // ---- new directories ----

  /** The entry "." or ".." of a directory. */
  function DotsEntry(dots: nat, c: Option<nat>): D.SfnEntry
    requires 1 <= dots <= 2
  {
    NEW_ENTRY.(name := seq(11, i => if i < dots then 0x2e else SPACE), attr := D.DIRECTORY).SetCluster(c)
  }

  /** A directory entry that is shown as so many dots and leads to cluster `c`, or to none. */
  predicate Dots(e: D.DirEntry, dots: nat, c: Option<nat>) {
    && e.Sfn? && e.sfn.Valid() && e.sfn.IsDirectory()
    && ShortName(e.sfn) == seq(dots, _ => DOT) && e.sfn.Cluster() == c
  }

  /** The directory at cluster `c` begins with "." for itself, ".." for `parent` and the terminal. */
  predicate HasDots(s: Entries, c: nat, parent: Option<nat>) {
    |s| >= 3 && Dots(s[0], 1, Some(c)) && Dots(s[1], 2, parent) && s[2].UnusedTerminal?
  }

  lemma {:induction false} DotsShown(dots: nat, c: Option<nat>)
    requires 1 <= dots <= 2
    ensures DotsEntry(dots, c).Valid() && !DotsEntry(dots, c).IsVolumeId() && IsDots(ShortName(DotsEntry(dots, c)))
    ensures D.Decode(D.Encode(D.Sfn(DotsEntry(dots, c)))) == D.Sfn(DotsEntry(dots, c))
    ensures (c.Some? ==> 0 < c.value < 0x1_0000_0000) ==> Dots(D.Sfn(DotsEntry(dots, c)), dots, c)
  {
    hide D.Encode, D.Decode;
    var e := DotsEntry(dots, c);
    D.SetClusterRoundTrip(NEW_ENTRY, c);
    D.EntryRoundTrip(D.Sfn(e));
    var b, l := e.name[..8], HasBit(e.ntRes, D.BASE_LOWER);
    assert b[0] == 0x2e && b[1] == (if dots == 2 then 0x2e else SPACE) && b[2] == SPACE;
    assert b[1..][1..] == b[2..];
    assert Shown(b[2..], l) == [];
    assert Shown(b[1..], l) == if dots == 2 then [DOT] else [];
    assert Shown(b, l) == if dots == 2 then [DOT, DOT] else [DOT];
    assert e.name[8] == SPACE && e.name[8..][0] == SPACE;
    assert Shown(e.name[8..], HasBit(e.ntRes, D.EXT_LOWER)) == [];
    assert ShortName(e) == Shown(b, l);
  }

  lemma {:induction false} DotsSkipped(s: Entries, i: nat, e: D.SfnEntry)
    requires i < |s| && s[i] == D.Sfn(e) && !e.IsVolumeId() && IsDots(ShortName(e))
    ensures List(s, Init, i, i) == List(s, Init, i + 1, i + 1)
  {
    hide ShortName, IsDots, D.SfnEntry.IsVolumeId;
    PlusNothing(List(s, Init, i + 1, i + 1));
  }

  lemma {:induction false} NoLongNames(s: Entries, n: nat)
    requires n < |s| && s[n].UnusedTerminal? && forall i :: 0 <= i < n ==> s[i].Sfn?
    ensures WellFormed(s)
  {
    hide EndFrom, Joined;
    EndIs(s, n);
  }

  /** A directory with nothing but its two entries lists no file. */
  lemma {:induction false} NewListing(s: Entries, a: D.SfnEntry, b: D.SfnEntry)
    requires |s| >= 3 && s[0] == D.Sfn(a) && s[1] == D.Sfn(b) && s[2].UnusedTerminal?
    requires !a.IsVolumeId() && IsDots(ShortName(a)) && !b.IsVolumeId() && IsDots(ShortName(b))
    ensures WellFormed(s) && Files(s) == Some([])
  {
    hide ShortName, IsDots, D.SfnEntry.IsVolumeId, List, WellFormed;
    NoLongNames(s, 2);
    DotsSkipped(s, 0, a);
    DotsSkipped(s, 1, b);
    ReadsTerminal(s, Init, 2);
  }

  lemma {:induction false} AllocateUndisturbed(fs: Fs, size: nat, c: nat)
    requires Readable(fs, size) && IsCluster(fs.fat, c) && fs.fat[c].Unused?
    ensures var fs' := fs.(fat := fs.fat[c := UsedEoc]);
            Undisturbed(fs, fs', [], [c], Slot(c, 0)) && Readable(fs', size) && IsChain(fs'.fat, [c])
  {
  }

  /** A cluster with the first entries of a new directory. */
  method NewDirectory(root: Root, parent: Option<nat>) returns (r: Result<nat, Error>)
    requires root.Valid() && Readable(root.State(), root.bs.ClusterBytes())
    requires parent.Some? ==> IsCluster(root.State().fat, parent.value)
    modifies root.volume
    ensures root.Valid() && Readable(root.State(), root.bs.ClusterBytes())
    ensures r.Err? ==> root.State() == old(root.State())
    ensures r.Err? <==> FreeCount(old(root.State()).fat) == 0
    ensures r.Ok? ==>
              && IsCluster(old(root.State()).fat, r.value) && old(root.State()).fat[r.value].Unused?
              && FreeCount(root.State().fat) == FreeCount(old(root.State()).fat) - 1 && r.value == FirstUnused(old(root.State()).fat, 2)
              && IsDir(root, [r.value]) && WellFormed(EntriesOf(root, [r.value])) && Files(EntriesOf(root, [r.value])) == Some([])
              && HasDots(EntriesOf(root, [r.value]), r.value, parent)
              && Undisturbed(old(root.State()), root.State(), [], [r.value], Slot(r.value, 0))
  {
    hide Root.Valid, Root.State, BootSector.Consistent, BootSector.ClusterCount, BootSector.ClusterBytes, D.Decode,
      D.Encode, Slots, Undisturbed, IsChain, DotsEntry, List, Whole, End, FirstUnused, FreeCount, Dots;
    ghost var fs, size := root.State(), root.bs.ClusterBytes();
    root.Shapes();
    if parent.Some? {
      ClusterNumber(fs, size, parent.value);
    }
    LowestUnused(fs.fat);
    AllocateCounts(fs.fat);
    r := Allocate(root);
    if r.Err? {
      return;
    }
    var c := r.value;
    AllocateUndisturbed(fs, size, c);
    ClusterNumber(fs, size, c);
    ghost var fs1 := root.State();
    FirstEntries(root, c, parent);
    UndisturbedTwice(fs, fs1, root.State(), [], [c], [c], Slot(c, 0));
    DotsShown(1, Some(c));
    DotsShown(2, parent);
    NewListing(EntriesOf(root, [c]), DotsEntry(1, Some(c)), DotsEntry(2, parent));
  }

  lemma {:induction false} LowestUnused(fat: Fat)
    requires |fat| >= 2
    ensures Allocated(fat).Some? ==>
              var (fat', c) := Allocated(fat).value;
              IsCluster(fat, c) && fat[c].Unused? && fat' == fat[c := UsedEoc] && c == FirstUnused(fat, 2)
  {
  }

  /** Writes ".", ".." and the terminal. */
  method FirstEntries(root: Root, c: nat, parent: Option<nat>)
    requires IsDir(root, [c])
    modifies root.volume
    ensures IsDir(root, [c]) && |EntriesOf(root, [c])| >= 3 && root.State().fat == old(root.State().fat)
    ensures EntriesOf(root, [c])[0] == D.Sfn(DotsEntry(1, Some(c))) && EntriesOf(root, [c])[1] == D.Sfn(DotsEntry(2, parent))
    ensures EntriesOf(root, [c])[2] == D.UnusedTerminal
    ensures Undisturbed(old(root.State()), root.State(), [c], [c], Slot(c, 0))
  {
    hide Root.Valid, Root.State, BootSector.Consistent, BootSector.ClusterCount, BootSector.ClusterBytes, D.Decode,
      D.Encode, Undisturbed, IsChain, DotsEntry;
    ghost var fs := root.State();
    root.Shapes();
    CapacityPositive(root.bs);
    assert [c][..0] == [];
    DotsShown(1, Some(c));
    DotsShown(2, parent);
    D.EntryRoundTrip(D.UnusedTerminal);
    WriteEntry(root, Slot(c, 0), D.Sfn(DotsEntry(1, Some(c))), [c], 0, 0);
    ghost var fs1 := root.State();
    WriteEntry(root, Slot(c, 1), D.Sfn(DotsEntry(2, parent)), [c], 0, 1);
    UndisturbedTwice(fs, fs1, root.State(), [c], [c], [c], Slot(c, 0));
    ghost var fs2 := root.State();
    WriteEntry(root, Slot(c, 2), D.UnusedTerminal, [c], 0, 2);
    UndisturbedTwice(fs, fs2, root.State(), [c], [c], [c], Slot(c, 0));
  }

  /** Clusters in use outside `chain` keep their entry and their bytes. */
  ghost predicate OthersKept(fs: Fs, fs': Fs, chain: seq<nat>) {
    && |fs'.fat| == |fs.fat| == |fs.data| == |fs'.data|
    && forall k :: 2 <= k < |fs.fat| && !fs.fat[k].Unused? && k !in chain ==> fs'.fat[k] == fs.fat[k] && fs'.data[k] == fs.data[k]
  }

  /** A new cluster leaves other directories as they are. */
  lemma {:induction false} StillDirectory(fs: Fs, fs': Fs, size: nat, chain: seq<nat>, c: nat)
    requires Readable(fs, size) && IsChain(fs.fat, chain) && IsCluster(fs.fat, c) && fs.fat[c].Unused?
    requires Undisturbed(fs, fs', [], [c], Slot(c, 0))
    ensures c !in chain && IsChain(fs'.fat, chain) && Slots(fs'.data, chain) == Slots(fs.data, chain)
  {
    forall k | k in chain ensures fs'.fat[k] == fs.fat[k] && fs'.data[k] == fs.data[k] && k != c {
      ChainInUse(fs.fat, chain, k);
    }
    ChainFrame(fs.fat, fs'.fat, chain);
    assert forall i :: 0 <= i < |chain| ==> chain[i] in chain;
    SlotsSame(fs.data, fs'.data, chain);
  }

  /** Growing a directory leaves a new one as it is. */
  lemma {:induction false} NewStays(fs: Fs, fs1: Fs, fs2: Fs, size: nat, chain: seq<nat>, chain': seq<nat>, c: nat)
    requires Readable(fs, size) && IsChain(fs.fat, chain) && IsCluster(fs.fat, c) && fs.fat[c].Unused?
    requires Undisturbed(fs, fs1, [], [c], Slot(c, 0)) && Undisturbed(fs1, fs2, chain, chain', Slot(chain[0], 0))
    requires IsChain(fs1.fat, [c])
    ensures IsChain(fs2.fat, [c]) && Slots(fs2.data, [c]) == Slots(fs1.data, [c]) && OthersKept(fs, fs2, chain)
  {
    StillChain(fs, chain, c);
    assert fs1.fat[[c][0]] == UsedEoc;
    assert fs2.fat[c] == fs1.fat[c] && fs2.data[c] == fs1.data[c];
    SlotsSame(fs1.data, fs2.data, [c]);
  }

  lemma {:induction false} StillChain(fs: Fs, chain: seq<nat>, c: nat)
    requires IsChain(fs.fat, chain) && IsCluster(fs.fat, c) && fs.fat[c].Unused?
    ensures c !in chain && chain[0] != c
  {
    if c in chain {
      ChainInUse(fs.fat, chain, c);
    }
  }

  /** The entry of a new directory: the given short entry, a directory with the cluster `c`. */
  function DirectoryEntry(e: D.SfnEntry, c: nat): D.SfnEntry {
    e.(attr := D.WithBit(e.attr, D.DIRECTORY, true)).SetCluster(Some(c))
  }

  predicate EndsShort(es: seq<D.DirEntry>) {
    es != [] && es[|es| - 1].Sfn?
  }

  /** The entries of a new directory with the cluster `c`. */
  function DirectoryBlock(name: D.Name, sfn: D.SfnEntry, c: nat): seq<D.DirEntry>
    requires LfnSequence(name, sfn).Some? && EndsShort(LfnSequence(name, sfn).value)
  {
    var es := LfnSequence(name, sfn).value;
    Edited(name, sfn, DirectoryEntry(es[|es| - 1].sfn, c))
  }

  lemma {:induction false} NewDirectoryBlock(name: D.Name, c: nat) returns (shown: D.Name, e: D.SfnEntry)
    requires LfnSequence(name, NEW_ENTRY).Some? && 0 < c < 0x1_0000_0000
    ensures LfnSequence(name, NEW_ENTRY).value != []
    ensures var es := LfnSequence(name, NEW_ENTRY).value;
            es[|es| - 1].Sfn? && e == DirectoryEntry(es[|es| - 1].sfn, c)
    ensures AllValid(Edited(name, NEW_ENTRY, e)) && IsBlock(Edited(name, NEW_ENTRY, e), shown, e)
    ensures shown == name <==> ReadsBack(name)
    ensures e.IsDirectory() && e.Cluster() == Some(c)
    ensures forall i :: 0 <= i < |Edited(name, NEW_ENTRY, e)| ==>
              D.Decode(D.Encode(Edited(name, NEW_ENTRY, e)[i])) == Edited(name, NEW_ENTRY, e)[i]
  {
    hide LfnSequence, D.Encode, D.Decode, ReadsBack, Feed, Joined, IsBlock, Edited;
    var x := SequenceEnds(name, NEW_ENTRY);
    e := DirectoryEntry(x, c);
    D.SetClusterRoundTrip(x, Some(c));
    D.SetClusterRoundTrip(e, Some(c));
    shown := SequenceIsBlock(name, NEW_ENTRY, e);
  }

  /** Cluster `c` was free, is in use now, and belongs to no chain that starts in a directory entry. */
  ghost predicate Leaked(fs: Fs, fs': Fs, chain: seq<nat>, c: nat) {
    && IsCluster(fs.fat, c) && fs.fat[c].Unused? && |fs'.fat| == |fs.fat| && fs'.fat[c] == UsedEoc && c !in chain
  }

  /** Then some cluster in use has no owner any more. */
  lemma {:induction false} LeakUncovers(fs: Fs, fs': Fs, chain: seq<nat>, c: nat, chains: map<nat, seq<nat>>)
    requires Leaked(fs, fs', chain, c) && (forall i :: i in chains ==> chains[i] == chain || IsChain(fs.fat, chains[i]))
    ensures !Covered(Owners(fs'.fat, chains))
  {
    forall i | i in chains ensures c !in chains[i] {
      if IsChain(fs.fat, chains[i]) && c in chains[i] {
        ChainInUse(fs.fat, chains[i], c);
      }
    }
    assert forall i :: !Chains.Owns(chains, i, c);
  }

  /** Dir::create_dir: like `CreateFile`, for an entry with the directory bit and the cluster of a new
      directory that lists no file. That cluster is allocated first: it is one of those that the entries
      could have had, and it is lost when there is no space for them. */
  method CreateDir(root: Root, first: nat, name: D.Name, ghost chain: seq<nat>)
    returns (r: Result<(), CreateError>, ghost chain': seq<nat>, ghost more: seq<Listed>)
    requires IsDir(root, chain) && chain[0] == first && Whole(EntriesOf(root, chain))
    modifies root.volume
    ensures IsDir(root, chain') && chain <= chain' && OthersKept(old(root.State()), root.State(), chain)
    ensures Files(old(EntriesOf(root, chain))).Some?
    ensures r == Err(FileAlreadyExists) <==> Named(Files(old(EntriesOf(root, chain))).value, name)
    ensures r == Err(InvalidFileName) <==> !Named(Files(old(EntriesOf(root, chain))).value, name) && LfnSequence(name, NEW_ENTRY).None?
    ensures r.Ok? || r.error.NoSpace? ==>
              LfnSequence(name, NEW_ENTRY).Some? && !Named(Files(old(EntriesOf(root, chain))).value, name)
    ensures FreeCount(old(root.State()).fat) == 0 && (r.Ok? || r.error.NoSpace?) ==> r == Err(NoSpace) && root.State() == old(root.State())
    ensures FreeCount(old(root.State()).fat) > 0 && (r.Ok? || r.error.NoSpace?) ==>
              && Capacity(root.bs) <= old(Places(root, chain))
              && EndsShort(LfnSequence(name, NEW_ENTRY).value)
              && InsertsAs(old(EntriesOf(root, chain)), EntriesOf(root, chain'),
                           DirectoryBlock(name, NEW_ENTRY, FirstUnused(old(root.State()).fat, 2)),
                           old(Places(root, chain)) - Capacity(root.bs), name, r.Ok?, more)
              && (r.Err? && more == [] ==> Leaked(old(root.State()), root.State(), chain', FirstUnused(old(root.State()).fat, 2)))
              && var c := FirstUnused(old(root.State()).fat, 2);
                 && IsDir(root, [c]) && WellFormed(EntriesOf(root, [c])) && Files(EntriesOf(root, [c])) == Some([])
                 && HasDots(EntriesOf(root, [c]), c, if first == root.bs.rootCluster then None else Some(first))
                 && ParentOf(EntriesOf(root, [c]), c, root.bs.rootCluster) == if c == root.bs.rootCluster then None else Some(first)
    ensures more != [] ==> more[0].sfn.IsDirectory() && more[0].sfn.Cluster() == Some(FirstUnused(old(root.State()).fat, 2))
  {
    hide Root.Valid, Root.State, BootSector.Consistent, BootSector.ClusterCount, BootSector.ClusterBytes, Slots,
      IsChain, Locates, List, LfnSequence, Whole, Undisturbed, Named, ReadsBack, IsDots, Room, ToWrite,
      Overwritten, Adds, IsBlock, D.SfnEntry.Cluster, OthersKept, Edited, DirectoryEntry, InsertsAs, InsertEnd, FirstUnused,
      FreeCount, Spare, Jammed, Leaked, HasDots, WellFormed, ParentOf;
    ghost var fs, size, s := root.State(), root.bs.ClusterBytes(), EntriesOf(root, chain);
    root.Shapes();
    WholeLists(s);
    HasEntries(fs, root.bs, chain);
    NothingChanged(fs, chain, Files(s));
    chain', more := chain, [];
    var taken := NameTaken(root, first, name, chain);
    if taken {
      return Err(FileAlreadyExists), chain', more;
    }
    var es := LfnSequence(name, NEW_ENTRY);
    if es.None? {
      return Err(InvalidFileName), chain', more;
    }
    FirstInRange(fs.fat, chain);
    var n := NewDirectory(root, if first == root.bs.rootCluster then None else Some(first));
    if n.Err? {
      return Err(NoSpace), chain', more;
    }
    ghost var fs1 := root.State();
    StillDirectory(fs, fs1, size, chain, n.value);
    ghost var shown, e, k;
    ClusterNumber(fs, size, n.value);
    shown, e := NewDirectoryBlock(name, n.value);
    var entries := DirectoryBlock(name, NEW_ENTRY, n.value);
    BlockFilled(entries, shown, e);
    var t;
    CapacityPositive(root.bs);
    SpareCounts(root.bs, fs.fat, fs1.fat);
    ghost var places := Places(root, chain);
    t, chain', k := InsertEntries(root, first, entries, chain);
    NewStays(fs, fs1, root.State(), size, chain, chain', n.value);
    NewLeaks(fs, fs1, root.State(), size, chain, chain', n.value);
    ParentOfNew(EntriesOf(root, [n.value]), n.value, first, root.bs.rootCluster);
    more := InsertedAs(s, EntriesOf(root, chain'), entries, shown, e, k, t.Ok?, places, name);
    r := if t.Ok? then Ok(()) else Err(NoSpace);
  }

  lemma {:induction false} NewLeaks(fs: Fs, fs1: Fs, fs2: Fs, size: nat, chain: seq<nat>, chain': seq<nat>, c: nat)
    requires Readable(fs, size) && IsChain(fs.fat, chain) && IsCluster(fs.fat, c) && fs.fat[c].Unused?
    requires Undisturbed(fs, fs1, [], [c], Slot(c, 0)) && Undisturbed(fs1, fs2, chain, chain', Slot(chain[0], 0))
    requires IsChain(fs1.fat, [c])
    ensures Leaked(fs, fs2, chain', c)
  {
    StillChain(fs, chain, c);
    assert fs1.fat[[c][0]] == UsedEoc;
    assert fs2.fat[c] == fs1.fat[c];
  }

  lemma {:induction false} NothingChanged(fs: Fs, chain: seq<nat>, files: Option<seq<Listed>>)
    requires |fs.fat| == |fs.data|
    ensures OthersKept(fs, fs, chain) && Adds(files, files, [])
  {
    AddsNothing(files);
  }

  lemma FirstInRange(fat: Fat, chain: seq<nat>)
    requires IsChain(fat, chain)
    ensures IsCluster(fat, chain[0])
  {
  }

  lemma ClusterNumber(fs: Fs, size: nat, c: nat)
    requires Shaped(fs, size) && IsCluster(fs.fat, c)
    ensures 0 < c < 0x1_0000_0000
  {
  }

  // ---- the way up ----

  /** Where ".." leads: nowhere from the root directory, and to the root directory if the entry has no cluster. */
  function ParentOf(s: Entries, first: nat, rootCluster: nat): (p: Option<nat>)
    requires |s| >= 2
  {
    if first == rootCluster then None else
    match s[1]
    case Sfn(sfn) => Some(match sfn.Cluster() case None => rootCluster case Some(c) => c)
    case _ => None
  }

  /** Dir::parent. */
  method Parent(root: Root, first: nat, ghost chain: seq<nat>) returns (p: Option<nat>)
    requires IsDir(root, chain) && chain[0] == first
    modifies root.volume
    ensures IsDir(root, chain) && root.State() == old(root.State())
    ensures |EntriesOf(root, chain)| >= 2 && p == ParentOf(EntriesOf(root, chain), first, root.bs.rootCluster)
  {
    hide Root.Valid, Root.State, BootSector.Consistent, BootSector.ClusterCount, BootSector.ClusterBytes, Slots, IsChain,
      D.SfnEntry.Cluster;
    root.Shapes();
    CapacityPositive(root.bs);
    SecondEntry(root.State(), root.bs, chain);
    if first == root.bs.rootCluster {
      return None;
    }
    var e := ReadEntry(root, Slot(first, 1), chain, 0, 1);
    match e {
      case Sfn(sfn) =>
        var c := sfn.Cluster();
        return Some(if c.Some? then c.value else root.bs.rootCluster);
      case _ =>
        return None;
    }
  }

  lemma {:induction false} SecondEntry(fs: Fs, bs: BootSector, chain: seq<nat>)
    requires bs.Consistent() && Readable(fs, bs.ClusterBytes()) && IsChain(fs.fat, chain)
    ensures Locates(fs, bs.ClusterBytes(), chain, 0, 1, 1) && |Slots(fs.data, chain)| >= 2
  {
    hide BootSector.Consistent, BootSector.ClusterBytes;
    CapacityPositive(bs);
    assert chain[..0] == [];
    SlotBound(fs, bs.ClusterBytes(), chain, 0, 1, 1);
  }

  /** The parent of a new directory is the directory in which it was made. */
  lemma ParentOfNew(s: Entries, c: nat, first: nat, rootCluster: nat)
    requires HasDots(s, c, if first == rootCluster then None else Some(first))
    ensures ParentOf(s, c, rootCluster) == if c == rootCluster then None else Some(first)
  {
    hide ShortName;
  }
}
