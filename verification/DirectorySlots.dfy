/** The entries of a directory as laid out over the clusters of its chain, fs/fat/low_level.rs. */
module DirectorySlots {
  import opened Bytes
  import opened FatEntries
  import opened LowLevel
  import opened Chains
  import opened FileContents
  import opened Listings
  import opened Insertions
  import D = DirEntries
  import opened LongNames

  function EntryAt(b: seq<byte>, n: nat): (e: D.DirEntry)
    requires (n + 1) * 32 <= |b|
    ensures e.Valid()
  {
    D.Decode(b[n * 32..(n + 1) * 32])
  }

  /** The entries of one cluster. */
  function ClusterEntries(b: seq<byte>): (es: Entries)
    ensures |es| == |b| / 32
  {
    seq(|b| / 32, n requires 0 <= n < |b| / 32 => EntryAt(b, n))
  }

  /** The entries of the clusters `cs`, one after the other. */
  ghost function Slots(data: seq<seq<byte>>, cs: seq<nat>): (es: Entries)
    requires forall i :: 0 <= i < |cs| ==> cs[i] < |data|
  {
    if cs == [] then [] else Slots(data, cs[..|cs| - 1]) + ClusterEntries(data[cs[|cs| - 1]])
  }

  /** Entry `n` of the `m`-th cluster is entry `at` of the directory; `n` may be one past the cluster. */
  ghost predicate Locates(fs: Fs, size: nat, chain: seq<nat>, m: nat, n: nat, at: nat) {
    && Readable(fs, size) && IsChain(fs.fat, chain)
    && m < |chain| && n <= size / 32
    && |Slots(fs.data, chain[..m])| + n == at
  }

  lemma {:induction false} SlotsGrow(data: seq<seq<byte>>, cs: seq<nat>, m: nat)
    requires (forall i :: 0 <= i < |cs| ==> cs[i] < |data|) && m < |cs|
    ensures Slots(data, cs[..m + 1]) == Slots(data, cs[..m]) + ClusterEntries(data[cs[m]])
  {
    assert cs[..m + 1][..m] == cs[..m];
  }

  lemma {:induction false} SlotsPrefix(data: seq<seq<byte>>, cs: seq<nat>, m: nat)
    requires (forall i :: 0 <= i < |cs| ==> cs[i] < |data|) && m <= |cs|
    ensures Slots(data, cs[..m]) <= Slots(data, cs)
    decreases |cs| - m
  {
    hide ClusterEntries;
    if m < |cs| {
      SlotsGrow(data, cs, m);
      SlotsPrefix(data, cs, m + 1);
    } else {
      assert cs[..m] == cs;
    }
  }

  lemma {:induction false} SlotsSame(data: seq<seq<byte>>, data': seq<seq<byte>>, cs: seq<nat>)
    requires |data'| == |data| && forall i :: 0 <= i < |cs| ==> cs[i] < |data| && data'[cs[i]] == data[cs[i]]
    ensures Slots(data', cs) == Slots(data, cs)
    decreases |cs|
  {
    if cs != [] {
      SlotsSame(data, data', cs[..|cs| - 1]);
    }
  }

  lemma {:induction false} SlotBound(fs: Fs, size: nat, chain: seq<nat>, m: nat, n: nat, at: nat)
    requires Locates(fs, size, chain, m, n, at)
    ensures at <= |Slots(fs.data, chain)| && IsCluster(fs.fat, chain[m]) && (n < size / 32 ==> at < |Slots(fs.data, chain)|)
  {
    hide EntryAt;
    SlotsGrow(fs.data, chain, m);
    SlotsPrefix(fs.data, chain, m + 1);
  }

  /** What is found where `Locates` says. */
  lemma {:induction false} SlotFound(fs: Fs, size: nat, chain: seq<nat>, m: nat, n: nat, at: nat)
    requires Locates(fs, size, chain, m, n, at) && n < size / 32
    ensures at < |Slots(fs.data, chain)| && (n + 1) * 32 <= |fs.data[chain[m]]|
    ensures Slots(fs.data, chain)[at] == EntryAt(fs.data[chain[m]], n)
  {
    hide EntryAt;
    SlotsGrow(fs.data, chain, m);
    SlotsPrefix(fs.data, chain, m + 1);
    assert Slots(fs.data, chain)[at] == Slots(fs.data, chain[..m + 1])[at] == ClusterEntries(fs.data[chain[m]])[n];
  }

  /** From the end of one cluster to the next. */
  lemma {:induction false} NextCluster(fs: Fs, size: nat, chain: seq<nat>, m: nat, at: nat)
    requires Locates(fs, size, chain, m, size / 32, at)
    ensures fs.fat[chain[m]].Chain() == if m + 1 < |chain| then Some(chain[m + 1]) else None
    ensures m + 1 < |chain| ==> Locates(fs, size, chain, m + 1, 0, at)
    ensures m + 1 == |chain| ==> at == |Slots(fs.data, chain)|
  {
    hide EntryAt;
    SlotsGrow(fs.data, chain, m);
    if m + 1 < |chain| {
      assert fs.fat[chain[m]] == UsedChained(chain[m + 1]);
    } else {
      assert chain[..m + 1] == chain;
    }
  }

  /** Entries are in the order of their clusters. */
  lemma {:induction false} SlotOrder(fs: Fs, size: nat, chain: seq<nat>, m: nat, n: nat, at: nat, m': nat, n': nat,
      at': nat)
    requires Locates(fs, size, chain, m, n, at) && Locates(fs, size, chain, m', n', at')
    ensures m < m' ==> at <= at' && (n < size / 32 ==> at < at')
    ensures m == m' ==> at' - at == n' - n
  {
    hide EntryAt;
    if m < m' {
      SlotsGrow(fs.data, chain, m);
      SlotsPrefix(fs.data, chain[..m'], m + 1);
      assert chain[..m'][..m + 1] == chain[..m + 1];
    }
  }

  /** Where entries lie does not depend on what they hold. */
  lemma {:induction false} LocatesStays(fs: Fs, fs': Fs, size: nat, chain: seq<nat>, m: nat, n: nat, at: nat)
    requires Locates(fs, size, chain, m, n, at) && Readable(fs', size) && fs'.fat == fs.fat
    ensures Locates(fs', size, chain, m, n, at)
  {
    SlotsLength(fs.data, fs'.data, chain[..m]);
  }

  /** Every cluster of a directory holds the same number of entries. */
  lemma {:induction false} SlotsCount(fs: Fs, size: nat, cs: seq<nat>)
    requires Shaped(fs, size) && forall i :: 0 <= i < |cs| ==> 2 <= cs[i] < |fs.data|
    ensures |Slots(fs.data, cs)| == |cs| * (size / 32)
    decreases |cs|
  {
    if cs != [] {
      SlotsCount(fs, size, cs[..|cs| - 1]);
      assert |cs| * (size / 32) == (|cs| - 1) * (size / 32) + size / 32;
    }
  }

  lemma {:induction false} SlotsLength(data: seq<seq<byte>>, data': seq<seq<byte>>, cs: seq<nat>)
    requires |data'| == |data| && forall i :: 0 <= i < |cs| ==> cs[i] < |data| && |data'[cs[i]]| == |data[cs[i]]|
    ensures |Slots(data', cs)| == |Slots(data, cs)|
    decreases |cs|
  {
    if cs != [] {
      SlotsLength(data, data', cs[..|cs| - 1]);
    }
  }

  // ---- writing an entry ----

  lemma {:induction false} EntryStored(b: seq<byte>, n: nat, e: D.DirEntry)
    requires e.Valid() && D.Decode(D.Encode(e)) == e && (n + 1) * 32 <= |b|
    ensures ClusterEntries(Splice(b, n * 32, D.Encode(e))) == ClusterEntries(b)[n := e]
  {
    hide D.Encode, D.Decode;
    var b' := Splice(b, n * 32, D.Encode(e));
    forall k | 0 <= k < |b| / 32 ensures EntryAt(b', k) == ClusterEntries(b)[n := e][k] {
      if k == n {
        assert b'[n * 32..(n + 1) * 32] == D.Encode(e);
      } else {
        assert b'[k * 32..(k + 1) * 32] == b[k * 32..(k + 1) * 32];
      }
    }
  }

  lemma {:induction false} SlotStored(fs: Fs, size: nat, chain: seq<nat>, m: nat, n: nat, at: nat, e: D.DirEntry)
    requires Locates(fs, size, chain, m, n, at) && n < size / 32
    requires e.Valid() && D.Decode(D.Encode(e)) == e
    ensures at < |Slots(fs.data, chain)| && (n + 1) * 32 <= |fs.data[chain[m]]|
    ensures var fs' := fs.Store(chain[m], n * 32, D.Encode(e));
            && Slots(fs'.data, chain) == Slots(fs.data, chain)[at := e]
            && Locates(fs', size, chain, m, n + 1, at + 1)
  {
    hide EntryAt, D.Encode, D.Decode, ClusterEntries;
    SlotFound(fs, size, chain, m, n, at);
    var fs' := fs.Store(chain[m], n * 32, D.Encode(e));
    EntryStored(fs.data[chain[m]], n, e);
    ChainsAreAcyclic(fs.fat, chain);
    SlotsSame(fs.data, fs'.data, chain[..m]);
    SlotsReplaced(fs.data, fs'.data, chain, m, n, e);
  }

  lemma {:induction false} SlotsReplaced(data: seq<seq<byte>>, data': seq<seq<byte>>, cs: seq<nat>, m: nat, n: nat,
      e: D.DirEntry)
    requires e.Valid() && |data'| == |data| && m < |cs| && (forall i :: 0 <= i < |cs| ==> cs[i] < |data|)
    requires forall i :: 0 <= i < |cs| && i != m ==> data'[cs[i]] == data[cs[i]]
    requires n < |data[cs[m]]| / 32 && ClusterEntries(data'[cs[m]]) == ClusterEntries(data[cs[m]])[n := e]
    ensures |Slots(data, cs[..m])| + n < |Slots(data, cs)|
    ensures Slots(data', cs) == Slots(data, cs)[|Slots(data, cs[..m])| + n := e]
    decreases |cs|
  {
    hide ClusterEntries;
    var k := |cs| - 1;
    if m == k {
      SlotsSame(data, data', cs[..k]);
      ReplacedInLast(Slots(data, cs[..k]), ClusterEntries(data[cs[k]]), n, e);
    } else {
      SlotsReplaced(data, data', cs[..k], m, n, e);
      assert cs[..k][..m] == cs[..m];
      ReplacedInFirst(Slots(data, cs[..k]), ClusterEntries(data[cs[k]]), |Slots(data, cs[..m])| + n, e);
    }
  }

  lemma ReplacedInLast<T>(a: seq<T>, b: seq<T>, n: nat, e: T)
    requires n < |b|
    ensures a + b[n := e] == (a + b)[|a| + n := e]
  {
  }

  lemma ReplacedInFirst<T>(a: seq<T>, b: seq<T>, n: nat, e: T)
    requires n < |a|
    ensures a[n := e] + b == (a + b)[n := e]
  {
  }
}
