/** The byte streams of files as functions of the table and the cluster bytes, fs/fat.rs. */
module FileContents {
  import opened Bytes
  import opened FatEntries
  import opened LowLevel
  import opened Chains
  import opened Remainders

  /** A cluster and an offset in it. */
  datatype Position = Position(cluster: nat, offset: nat)

  ghost predicate CursorOk(fs: Fs, cursor: Option<Position>) {
    cursor.Some? ==>
      && IsCluster(fs.fat, cursor.value.cluster)
      && cursor.value.cluster < |fs.data|
      && cursor.value.offset < |fs.data[cursor.value.cluster]|
  }

  ghost predicate Readable(fs: Fs, size: nat) {
    Shaped(fs, size) && InRange(fs.fat)
  }

  /** Where the stream goes on after `l` bytes from `p`. */
  function After(fs: Fs, p: Position, l: nat): Option<Position>
    requires p.cluster < |fs.fat| == |fs.data|
  {
    if p.offset + l == |fs.data[p.cluster]| then
      (match fs.fat[p.cluster].Chain() case None => None case Some(c) => Some(Position(c, 0)))
    else Some(Position(p.cluster, p.offset + l))
  }

  /** The next `rest` bytes from a cursor on, fewer if the chain ends before. */
  ghost function Stream(fs: Fs, size: nat, cursor: Option<Position>, rest: nat): (b: seq<byte>)
    requires Readable(fs, size) && CursorOk(fs, cursor)
    ensures |b| <= rest
    decreases rest
  {
    if rest == 0 || cursor.None? then [] else
    var p := cursor.value;
    var l := Min(rest, size - p.offset);
    fs.data[p.cluster][p.offset..p.offset + l] + Stream(fs, size, After(fs, p, l), rest - l)
  }

  lemma {:induction false} StreamBegins(fs: Fs, size: nat, p: Position, rest: nat)
    requires Readable(fs, size) && CursorOk(fs, Some(p)) && rest > 0
    ensures var l := Min(rest, size - p.offset);
            && 0 < l && |fs.fat| == |fs.data| && |fs.data[p.cluster]| == size
            && CursorOk(fs, After(fs, p, l))
            && Stream(fs, size, Some(p), rest) == fs.data[p.cluster][p.offset..p.offset + l] + Stream(fs, size, After(fs, p, l), rest - l)
  {
  }

  /** A stream can be taken in any pieces that stay within one cluster. */
  lemma {:induction false} StreamSplits(fs: Fs, size: nat, p: Position, rest: nat, l: nat)
    requires Readable(fs, size) && CursorOk(fs, Some(p)) && 0 < l <= Min(rest, size - p.offset)
    ensures CursorOk(fs, After(fs, p, l))
    ensures Stream(fs, size, Some(p), rest)
         == fs.data[p.cluster][p.offset..p.offset + l] + Stream(fs, size, After(fs, p, l), rest - l)
  {
    hide Readable, Stream;
    StreamBegins(fs, size, p, rest);
    var m := Min(rest, size - p.offset);
    if l < m {
      var q := Position(p.cluster, p.offset + l);
      StreamBegins(fs, size, q, rest - l);
      assert After(fs, p, l) == Some(q) && After(fs, q, m - l) == After(fs, p, m);
      SlicesJoin(fs.data[p.cluster], p.offset, p.offset + l, p.offset + m, Stream(fs, size, After(fs, p, m), rest - m));
    }
  }

  lemma {:induction false} SlicesJoin(d: seq<byte>, i: nat, j: nat, k: nat, rest: seq<byte>)
    requires i <= j <= k <= |d|
    ensures d[i..k] + rest == d[i..j] + (d[j..k] + rest)
  {
    assert d[i..k] == d[i..j] + d[j..k];
  }

  /** The bytes of the clusters `cs`, one after the other. */
  ghost function BytesOf(data: seq<seq<byte>>, cs: seq<nat>): seq<byte>
    requires forall i :: 0 <= i < |cs| ==> cs[i] < |data|
  {
    if cs == [] then [] else BytesOf(data, cs[..|cs| - 1]) + data[cs[|cs| - 1]]
  }

  lemma {:induction false} BytesOfFirst(data: seq<seq<byte>>, c: nat, cs: seq<nat>)
    requires c < |data| && forall i :: 0 <= i < |cs| ==> cs[i] < |data|
    ensures BytesOf(data, [c] + cs) == data[c] + BytesOf(data, cs)
    decreases |cs|
  {
    var ds := [c] + cs;
    if cs == [] {
      assert ds[..0] == [];
    } else {
      var front, last := cs[..|cs| - 1], cs[|cs| - 1];
      BytesOfFirst(data, c, front);
      assert ds[..|ds| - 1] == [c] + front && ds[|ds| - 1] == last;
      BytesJoin(data[c], BytesOf(data, front), data[last]);
    }
  }

  lemma BytesJoin(a: seq<byte>, b: seq<byte>, c: seq<byte>)
    ensures (a + b) + c == a + (b + c)
  {
  }

  lemma {:induction false} BytesOfSame(data: seq<seq<byte>>, data': seq<seq<byte>>, cs: seq<nat>)
    requires |data'| == |data| && forall i :: 0 <= i < |cs| ==> cs[i] < |data| && data'[cs[i]] == data[cs[i]]
    ensures BytesOf(data', cs) == BytesOf(data, cs)
    decreases |cs|
  {
    if cs != [] {
      BytesOfSame(data, data', cs[..|cs| - 1]);
    }
  }

  /** The first bytes of the clusters `cs`: all of them but the last, and `off` bytes of that. */
  ghost function Prefix(data: seq<seq<byte>>, cs: seq<nat>, off: nat): seq<byte>
    requires cs != [] && (forall i :: 0 <= i < |cs| ==> cs[i] < |data|) && off <= |data[cs[|cs| - 1]]|
  {
    BytesOf(data, cs[..|cs| - 1]) + data[cs[|cs| - 1]][..off]
  }

  /** Reading along a path gives its bytes. */
  lemma {:induction false} StreamFollowsPath(fs: Fs, size: nat, cs: seq<nat>, off: nat)
    requires Readable(fs, size) && IsPath(fs.fat, cs) && off <= size
    ensures CursorOk(fs, Some(Position(cs[0], 0)))
    ensures Stream(fs, size, Some(Position(cs[0], 0)), |Prefix(fs.data, cs, off)|) == Prefix(fs.data, cs, off)
    decreases |cs|
  {
    var p := Position(cs[0], 0);
    if |cs| == 1 {
      assert cs[..0] == [];
      assert Prefix(fs.data, cs, off) == fs.data[cs[0]][..off];
    } else {
      var tail := cs[1..];
      PathTail(fs.fat, cs);
      StreamFollowsPath(fs, size, tail, off);
      PrefixFirst(fs.data, cs, off);
      assert fs.fat[cs[0]] == UsedChained(cs[1]);
      assert After(fs, p, size) == Some(Position(cs[1], 0));
      assert fs.data[cs[0]][..size] == fs.data[cs[0]];
    }
  }

  lemma {:induction false} PathTail(fat: Fat, cs: seq<nat>)
    requires IsPath(fat, cs) && |cs| > 1
    ensures IsPath(fat, cs[1..])
  {
    var ds := cs[1..];
    assert forall i :: 0 <= i < |ds| ==> ds[i] == cs[i + 1] && fat[ds[i]] == fat[cs[i + 1]];
  }

  lemma {:induction false} PrefixFirst(data: seq<seq<byte>>, cs: seq<nat>, off: nat)
    requires |cs| > 1 && (forall i :: 0 <= i < |cs| ==> cs[i] < |data|) && off <= |data[cs[|cs| - 1]]|
    ensures Prefix(data, cs, off) == data[cs[0]] + Prefix(data, cs[1..], off)
  {
    var mid := cs[1..][..|cs| - 2];
    assert cs[..|cs| - 1] == [cs[0]] + mid;
    BytesOfFirst(data, cs[0], mid);
  }

  // ---- writing ----

  /** `written` fills the chain up to `off` bytes of its `m`-th cluster. */
  ghost predicate Writing(fs: Fs, size: nat, chain: seq<nat>, m: nat, off: nat, written: seq<byte>) {
    && Readable(fs, size)
    && IsClosed(fs.fat, chain)
    && 1 <= m <= |chain|
    && off <= size
    && written == Prefix(fs.data, chain[..m], off)
  }

  lemma {:induction false} WritingStarts(fs: Fs, size: nat, chain: seq<nat>)
    requires Readable(fs, size) && IsClosed(fs.fat, chain)
    ensures Writing(fs, size, chain, 1, 0, [])
  {
    assert chain[..1][..0] == [];
  }

  lemma {:induction false} BytesOfLength(fs: Fs, size: nat, cs: seq<nat>)
    requires Shaped(fs, size) && forall i :: 0 <= i < |cs| ==> 2 <= cs[i] < |fs.data|
    ensures |BytesOf(fs.data, cs)| == |cs| * size
    decreases |cs|
  {
    if cs != [] {
      BytesOfLength(fs, size, cs[..|cs| - 1]);
      assert |cs| * size == (|cs| - 1) * size + size;
    }
  }

  lemma {:induction false} WritingLength(fs: Fs, size: nat, chain: seq<nat>, m: nat, off: nat, written: seq<byte>)
    requires Writing(fs, size, chain, m, off, written)
    ensures |written| == (m - 1) * size + off && 1 <= m <= |chain| && off <= size
  {
    var cs := chain[..m][..m - 1];
    assert forall i :: 0 <= i < |cs| ==> cs[i] == chain[i] && IsCluster(fs.fat, chain[i]);
    BytesOfLength(fs, size, cs);
  }

  /** A full cluster is followed by the next one of the chain. */
  lemma {:induction false} WritingMovesOn(fs: Fs, size: nat, chain: seq<nat>, m: nat, written: seq<byte>)
    requires Writing(fs, size, chain, m, size, written) && m < |chain|
    ensures fs.fat[chain[m - 1]] == UsedChained(chain[m])
    ensures Writing(fs, size, chain, m + 1, 0, written)
  {
    assert chain[..m + 1][..m] == chain[..m] && chain[..m][..m - 1] == chain[..m - 1];
    assert fs.data[chain[m - 1]][..size] == fs.data[chain[m - 1]];
  }

  /** Bytes put at the cursor extend what is written. */
  lemma {:induction false} WritingPuts(fs: Fs, size: nat, chain: seq<nat>, m: nat, off: nat, written: seq<byte>,
      b: seq<byte>)
    requires Writing(fs, size, chain, m, off, written) && off + |b| <= size
    ensures Writing(fs.Store(chain[m - 1], off, b), size, chain, m, off + |b|, written + b)
  {
    var c := chain[m - 1];
    var fs' := fs.Store(c, off, b);
    ChainsAreAcyclic(fs.fat, chain);
    var cs := chain[..m][..m - 1];
    assert forall i :: 0 <= i < |cs| ==> cs[i] == chain[i];
    BytesOfSame(fs.data, fs'.data, cs);
    assert fs'.data[c][..off + |b|] == fs.data[c][..off] + b;
  }

  /** The chain grows at its end. */
  lemma {:induction false} WritingGrows(fs: Fs, size: nat, chain: seq<nat>, written: seq<byte>, c: nat)
    requires Writing(fs, size, chain, |chain|, size, written) && IsCluster(fs.fat, c) && fs.fat[c].Unused? && c !in chain
    ensures var fat' := fs.fat[c := UsedEoc][chain[|chain| - 1] := UsedChained(c)];
            Writing(fs.(fat := fat'), size, chain + [c], |chain| + 1, 0, written)
  {
    var m := |chain|;
    var fat' := fs.fat[c := UsedEoc][chain[m - 1] := UsedChained(c)];
    ChainExtends(fs.fat, chain, c);
    var fs' := fs.(fat := fat');
    assert Readable(fs', size);
    var cs := (chain + [c])[..m + 1];
    assert cs[..m] == chain && chain[..m] == chain;
    assert fs.data[chain[m - 1]][..size] == fs.data[chain[m - 1]];
  }

  // ---- what others see ----

  /** Where a directory entry lies. */
  datatype Slot = Slot(cluster: nat, index: nat) {
    function Begin(): nat {
      index * 32
    }
  }

  ghost predicate SlotOk(fs: Fs, size: nat, slot: Slot) {
    && Shaped(fs, size)
    && IsCluster(fs.fat, slot.cluster)
    && Used(fs.fat[slot.cluster])
    && slot.Begin() + 32 <= size
  }

  /** The bytes of cluster `k` are the same, except for the entry in `slot`. */
  ghost predicate SameBytes(fs: Fs, fs': Fs, k: nat, slot: Slot)
    requires k < |fs.data| == |fs'.data|
  {
    if k != slot.cluster then fs'.data[k] == fs.data[k] else
    && |fs'.data[k]| == |fs.data[k]|
    && forall i :: 0 <= i < |fs.data[k]| && !(slot.Begin() <= i < slot.Begin() + 32) ==> fs'.data[k][i] == fs.data[k][i]
  }

  /** Clusters in use outside `chain` keep their entry and their bytes; `chain'` adds only clusters
      that were unused. */
  ghost predicate Undisturbed(fs: Fs, fs': Fs, chain: seq<nat>, chain': seq<nat>, slot: Slot) {
    && |fs'.fat| == |fs.fat| == |fs.data| == |fs'.data|
    && (forall k :: 2 <= k < |fs.fat| && !fs.fat[k].Unused? && k !in chain ==> fs'.fat[k] == fs.fat[k] && SameBytes(fs, fs', k, slot))
    && (forall k :: k in chain' ==> 2 <= k < |fs.fat| && (k in chain || fs.fat[k].Unused?))
  }

  lemma {:induction false} UndisturbedTwice(a: Fs, b: Fs, c: Fs, chain: seq<nat>, chain': seq<nat>,
      chain'': seq<nat>, slot: Slot)
    requires Undisturbed(a, b, chain, chain', slot) && Undisturbed(b, c, chain', chain'', slot)
    ensures Undisturbed(a, c, chain, chain'', slot)
  {
    forall k | 2 <= k < |a.fat| && !a.fat[k].Unused? && k !in chain ensures c.fat[k] == a.fat[k] && SameBytes(a, c, k, slot) {
      assert b.fat[k] == a.fat[k] && k !in chain';
    }
  }

  /** Another file reads the same. */
  lemma {:induction false} OtherStreamSame(fs: Fs, fs': Fs, size: nat, chain: seq<nat>, chain': seq<nat>, slot: Slot,
      cs: seq<nat>, i: nat, off: nat, rest: nat)
    requires Readable(fs, size) && Readable(fs', size) && Undisturbed(fs, fs', chain, chain', slot)
    requires IsChain(fs.fat, cs) && slot.cluster !in cs && (forall k :: k in cs ==> k !in chain)
    requires i < |cs| && off < size
    ensures CursorOk(fs, Some(Position(cs[i], off))) && CursorOk(fs', Some(Position(cs[i], off)))
    ensures Stream(fs', size, Some(Position(cs[i], off)), rest) == Stream(fs, size, Some(Position(cs[i], off)), rest)
    decreases rest
  {
    hide Undisturbed, IsChain, Readable, Stream;
    var p := Position(cs[i], off);
    ClusterSame(fs, fs', size, chain, chain', slot, cs, i);
    if rest > 0 {
      var l := Min(rest, size - off);
      StreamBegins(fs, size, p, rest);
      StreamBegins(fs', size, p, rest);
      if off + l < size {
        OtherStreamSame(fs, fs', size, chain, chain', slot, cs, i, off + l, rest - l);
      } else if i < |cs| - 1 {
        OtherStreamSame(fs, fs', size, chain, chain', slot, cs, i + 1, 0, rest - l);
      } else {
        StreamEnds(fs, size, rest - l);
        StreamEnds(fs', size, rest - l);
      }
    } else {
      StreamNone(fs, size, p);
      StreamNone(fs', size, p);
    }
  }

  /** A cluster of another file is the same, and so is the way on from it. */
  lemma {:induction false} ClusterSame(fs: Fs, fs': Fs, size: nat, chain: seq<nat>, chain': seq<nat>, slot: Slot,
      cs: seq<nat>, i: nat)
    requires Readable(fs, size) && Readable(fs', size) && Undisturbed(fs, fs', chain, chain', slot)
    requires IsChain(fs.fat, cs) && slot.cluster !in cs && (forall k :: k in cs ==> k !in chain) && i < |cs|
    ensures IsCluster(fs.fat, cs[i]) && IsCluster(fs'.fat, cs[i])
    ensures |fs.fat| == |fs.data| == |fs'.fat| == |fs'.data| && |fs.data[cs[i]]| == size
    ensures fs'.fat[cs[i]] == fs.fat[cs[i]] && fs'.data[cs[i]] == fs.data[cs[i]]
    ensures fs.fat[cs[i]].Chain() == if i + 1 < |cs| then Some(cs[i + 1]) else None
  {
    ChainInUse(fs.fat, cs, cs[i]);
    assert cs[i] in cs;
  }

  lemma StreamEnds(fs: Fs, size: nat, rest: nat)
    requires Readable(fs, size)
    ensures Stream(fs, size, None, rest) == []
  {
  }

  lemma StreamNone(fs: Fs, size: nat, p: Position)
    requires Readable(fs, size) && CursorOk(fs, Some(p))
    ensures Stream(fs, size, Some(p), 0) == []
  {
  }

  // ---- the end of a writer ----

  /** The table after the chain is cut behind its `m`-th cluster. */
  lemma {:induction false} CutTable(fat: Fat, chain: seq<nat>, m: nat)
    requires InRange(fat) && IsClosed(fat, chain) && 1 <= m <= |chain|
    ensures IsCluster(fat, chain[m - 1])
    ensures InRange(Cut(fat, chain[m - 1])) && |Cut(fat, chain[m - 1])| == |fat|
    ensures forall k :: 0 <= k < |fat| ==>
              Cut(fat, chain[m - 1])[k] == if m < |chain| && k in chain[m - 1..] then Unused else fat[k]
    ensures IsClosed(Cut(fat, chain[m - 1]), chain[..m])
  {
    var fat' := Cut(fat, chain[m - 1]);
    forall k | 0 <= k < |fat| ensures fat'[k] == if m < |chain| && k in chain[m - 1..] then Unused else fat[k] {
      CutFreesRest(fat, chain, m - 1, k);
    }
    ChainsAreAcyclic(fat, chain);
    var cs := chain[..m];
    forall i | 0 <= i < m - 1 ensures fat'[cs[i]] == UsedChained(cs[i + 1]) {
      assert fat[chain[i]] == UsedChained(chain[i + 1]);
      assert chain[i] !in chain[m - 1..];
    }
  }

  /** After the cut, and with the entry written, the file reads as what was written, and nobody else
      notices. */
  lemma {:induction false} WrittenReadsBack(fs: Fs, size: nat, chain: seq<nat>, m: nat, off: nat, written: seq<byte>,
      slot: Slot, b: seq<byte>)
    requires Writing(fs, size, chain, m, off, written) && SlotOk(fs, size, slot) && slot.cluster !in chain && |b| == 32
    requires IsCluster(fs.fat, chain[m - 1])
    ensures var fs' := fs.(fat := Cut(fs.fat, chain[m - 1])).Store(slot.cluster, slot.Begin(), b);
            && Readable(fs', size) && SlotOk(fs', size, slot)
            && Undisturbed(fs, fs', chain, chain[..m], slot)
            && IsClosed(fs'.fat, chain[..m])
            && CursorOk(fs', Some(Position(chain[0], 0)))
            && Stream(fs', size, Some(Position(chain[0], 0)), |written|) == written
  {
    var fs1 := fs.(fat := Cut(fs.fat, chain[m - 1]));
    var fs' := fs1.Store(slot.cluster, slot.Begin(), b);
    CutTable(fs.fat, chain, m);
    CutUndisturbed(fs, size, chain, m, slot, b);
    var cs := chain[..m];
    assert forall i :: 0 <= i < |cs| ==> cs[i] == chain[i] && chain[i] in chain;
    BytesOfSame(fs.data, fs'.data, cs[..m - 1]);
    StreamFollowsPath(fs', size, cs, off);
  }

  lemma {:induction false} CutUndisturbed(fs: Fs, size: nat, chain: seq<nat>, m: nat, slot: Slot, b: seq<byte>)
    requires Readable(fs, size) && IsClosed(fs.fat, chain) && 1 <= m <= |chain|
    requires SlotOk(fs, size, slot) && slot.cluster !in chain && |b| == 32
    requires IsCluster(fs.fat, chain[m - 1])
    ensures var fs' := fs.(fat := Cut(fs.fat, chain[m - 1])).Store(slot.cluster, slot.Begin(), b);
            Readable(fs', size) && SlotOk(fs', size, slot) && Undisturbed(fs, fs', chain, chain[..m], slot)
  {
    CutTable(fs.fat, chain, m);
    assert forall k :: k in chain[m - 1..] ==> k in chain;
    assert forall k :: k in chain[..m] ==> k in chain;
  }

  // ---- going round in the last cluster ----

  /** What the last cluster holds when `written` went round in it and came to `off`: the bytes of the last
      round, and behind them those of the round before. */
  function Turned(written: seq<byte>, size: nat, off: nat): seq<byte>
    requires off <= size <= |written|
  {
    written[|written| - off..] + written[|written| - size..|written| - off]
  }

  /** The last cluster is its own successor: `written` fills the clusters before it and then went round in
      it, so that each cluster of bytes lies over the one before. */
  ghost predicate Wrapping(fs: Fs, size: nat, chain: seq<nat>, turns: nat, off: nat, written: seq<byte>) {
    && Readable(fs, size)
    && IsPath(fs.fat, chain) && NoDuplicates(chain) && IsBound(fs.fat, chain)
    && off <= size <= |written| && |chain| <= turns && |written| == turns * size + off
    && BytesOf(fs.data, chain[..|chain| - 1]) <= written
    && fs.data[chain[|chain| - 1]] == Turned(written, size, off)
  }

  /** A full file whose last cluster binds begins to go round. */
  lemma {:induction false} WrapStarts(fs: Fs, size: nat, chain: seq<nat>, written: seq<byte>)
    requires Writing(fs, size, chain, |chain|, size, written) && Binds(fs.fat, chain)
    ensures var last := chain[|chain| - 1];
            Wrapping(fs.(fat := fs.fat[last := UsedChained(last)]), size, chain, |chain|, 0, written)
  {
    var n, last := |chain|, chain[|chain| - 1];
    var fs' := fs.(fat := fs.fat[last := UsedChained(last)]);
    ChainsAreAcyclic(fs.fat, chain);
    WritingLength(fs, size, chain, n, size, written);
    assert n * size == (n - 1) * size + size;
    assert chain[..n] == chain;
    var front := BytesOf(fs.data, chain[..n - 1]);
    assert written == front + fs.data[last][..size];
    assert fs.data[last][..size] == fs.data[last];
    assert written[|written| - size..] == fs.data[last];
    assert Turned(written, size, 0) == fs.data[last];
    BoundPath(fs.fat, chain);
  }

  lemma {:induction false} BoundPath(fat: Fat, chain: seq<nat>)
    requires InRange(fat) && IsClosed(fat, chain) && NoDuplicates(chain)
    ensures var fat' := fat[chain[|chain| - 1] := UsedChained(chain[|chain| - 1])];
            IsPath(fat', chain) && IsBound(fat', chain) && InRange(fat')
  {
  }

  /** The next round. */
  lemma {:induction false} WrapTurns(fs: Fs, size: nat, chain: seq<nat>, turns: nat, written: seq<byte>)
    requires Wrapping(fs, size, chain, turns, size, written)
    ensures Wrapping(fs, size, chain, turns + 1, 0, written)
  {
    assert (turns + 1) * size == turns * size + size;
    assert Turned(written, size, size) == Turned(written, size, 0);
  }

  /** Bytes put in the last cluster. */
  lemma {:induction false} WrapPuts(fs: Fs, size: nat, chain: seq<nat>, turns: nat, off: nat, written: seq<byte>,
      b: seq<byte>)
    requires Wrapping(fs, size, chain, turns, off, written) && off + |b| <= size
    ensures Wrapping(fs.Store(chain[|chain| - 1], off, b), size, chain, turns, off + |b|, written + b)
  {
    var last, front := chain[|chain| - 1], chain[..|chain| - 1];
    var fs' := fs.Store(last, off, b);
    assert forall i :: 0 <= i < |front| ==> front[i] == chain[i] && chain[i] != last;
    BytesOfSame(fs.data, fs'.data, front);
    TurnedMore(written, size, off, b);
  }

  lemma {:induction false} TurnedMore(written: seq<byte>, size: nat, off: nat, b: seq<byte>)
    requires off + |b| <= size <= |written|
    ensures Turned(written + b, size, off + |b|) == Splice(Turned(written, size, off), off, b)
  {
    var l, t := |written|, Turned(written, size, off);
    assert t[..off] == written[l - off..] && t[off + |b|..] == written[l - size + |b|..l - off];
    assert (written + b)[l - off..] == written[l - off..] + b;
    assert (written + b)[l + |b| - size..l - off] == written[l - size + |b|..l - off];
  }

  /** All that can be read along a path that ends. */
  lemma {:induction false} StreamWholePath(fs: Fs, size: nat, cs: seq<nat>, rest: nat)
    requires Readable(fs, size) && IsPath(fs.fat, cs) && fs.fat[cs[|cs| - 1]].Chain() == None && |BytesOf(fs.data, cs)| <= rest
    ensures CursorOk(fs, Some(Position(cs[0], 0)))
    ensures Stream(fs, size, Some(Position(cs[0], 0)), rest) == BytesOf(fs.data, cs)
    decreases |cs|
  {
    hide Stream;
    var p, c := Position(cs[0], 0), cs[0];
    assert cs == [c] + cs[1..];
    BytesOfFirst(fs.data, c, cs[1..]);
    assert |fs.data[c]| == size;
    StreamBegins(fs, size, p, rest);
    assert fs.data[c][..size] == fs.data[c];
    if |cs| == 1 {
      StreamEnds(fs, size, rest - size);
    } else {
      PathTail(fs.fat, cs);
      StreamWholePath(fs, size, cs[1..], rest - size);
      assert fs.fat[cs[0]] == UsedChained(cs[1]);
    }
  }

  /** When a writer that went round is dropped, its last cluster is marked unused again, and a reader gets
      what the clusters hold. */
  lemma {:induction false} WrappedReadsBack(fs: Fs, size: nat, chain: seq<nat>, turns: nat, off: nat,
      written: seq<byte>, slot: Slot, b: seq<byte>)
    requires Wrapping(fs, size, chain, turns, off, written) && SlotOk(fs, size, slot) && slot.cluster !in chain && |b| == 32
    ensures var last := chain[|chain| - 1];
            IsCluster(fs.fat, last) && Cut(fs.fat, last) == fs.fat[last := Unused]
    ensures var last := chain[|chain| - 1];
            var fs' := fs.(fat := fs.fat[last := Unused]).Store(slot.cluster, slot.Begin(), b);
            && Readable(fs', size) && SlotOk(fs', size, slot) && IsClosed(fs'.fat, chain)
            && Undisturbed(fs, fs', chain, chain, slot)
            && CursorOk(fs', Some(Position(chain[0], 0)))
            && Stream(fs', size, Some(Position(chain[0], 0)), |written|)
               == BytesOf(fs.data, chain[..|chain| - 1]) + Turned(written, size, off)
  {
    hide Stream;
    var last, front := chain[|chain| - 1], chain[..|chain| - 1];
    var fs' := fs.(fat := fs.fat[last := Unused]).Store(slot.cluster, slot.Begin(), b);
    UnboundPath(fs.fat, chain);
    assert forall i :: 0 <= i < |chain| ==> chain[i] in chain;
    BytesOfSame(fs.data, fs'.data, chain);
    WrappingLength(fs, size, chain, turns, off, written);
    StreamWholePath(fs', size, chain, |written|);
  }

  /** What is left of `written` when it went round in the last of `n` clusters. */
  function WrapAround(written: seq<byte>, n: nat, size: nat): seq<byte>
    requires 1 <= n && 0 < size && n * size < |written|
  {
    assert n * size == (n - 1) * size + size;
    written[..(n - 1) * size] + Turned(written, size, (|written| - 1) % size + 1)
  }

  /** What a writer leaves: all that was written, unless the file cannot grow and its last cluster stands for
      all that follow. */
  function Remains(written: seq<byte>, n: nat, size: nat, loops: bool): seq<byte> {
    if loops && 1 <= n && 0 < size && n * size < |written| then WrapAround(written, n, size) else written
  }

  /** That is what was written exactly if it did not go round. */
  lemma {:induction false} RemainsExact(written: seq<byte>, n: nat, size: nat, loops: bool)
    requires 1 <= n && 0 < size
    ensures Remains(written, n, size, loops) == written <==> !loops || |written| <= n * size
    ensures loops && |written| > n * size ==> |Remains(written, n, size, loops)| == n * size
  {
    hide Turned;
    assert n * size == (n - 1) * size + size;
    if loops && n * size < |written| {
      TurnedLength(written, size, (|written| - 1) % size + 1);
    }
  }

  lemma TurnedLength(written: seq<byte>, size: nat, off: nat)
    requires off <= size <= |written|
    ensures |Turned(written, size, off)| == size
  {
  }

  lemma {:induction false} TurnedLast(written: seq<byte>, size: nat, turns: nat, off: nat)
    requires 0 < size <= |written| && off <= size && |written| == turns * size + off
    ensures Turned(written, size, off) == Turned(written, size, (|written| - 1) % size + 1)
  {
    if off > 0 {
      RemainderOf(|written| - 1, turns, off - 1, size);
    } else {
      assert turns >= 1;
      assert turns * size == (turns - 1) * size + size;
      RemainderOf(|written| - 1, turns - 1, size - 1, size);
    }
  }

  /** Between the clusters before the last one and the last one nothing is missing. */
  lemma {:induction false} WrappedRemains(fs: Fs, size: nat, chain: seq<nat>, turns: nat, off: nat, written: seq<byte>)
    requires Wrapping(fs, size, chain, turns, off, written)
    ensures BytesOf(fs.data, chain[..|chain| - 1]) + Turned(written, size, off) == Remains(written, |chain|, size, true)
  {
    hide BytesOf;
    WrappingLength(fs, size, chain, turns, off, written);
    TurnedLast(written, size, turns, off);
    var n, front := |chain|, BytesOf(fs.data, chain[..|chain| - 1]);
    assert n * size == (n - 1) * size + size;
    assert front == written[..(n - 1) * size];
    if n * size == |written| {
      assert off == 0 || off == size;
      assert Turned(written, size, off) == written[|written| - size..];
      assert written == written[..(n - 1) * size] + written[|written| - size..];
    }
  }

  lemma {:induction false} UnboundPath(fat: Fat, chain: seq<nat>)
    requires InRange(fat) && IsPath(fat, chain) && NoDuplicates(chain) && IsBound(fat, chain)
    ensures var fat' := fat[chain[|chain| - 1] := Unused];
            IsClosed(fat', chain) && InRange(fat') && Cut(fat, chain[|chain| - 1]) == fat'
  {
    var last := chain[|chain| - 1];
    assert Released(fat[last := Unused], last) == fat[last := Unused];
  }

  lemma {:induction false} WrappingLength(fs: Fs, size: nat, chain: seq<nat>, turns: nat, off: nat, written: seq<byte>)
    requires Wrapping(fs, size, chain, turns, off, written)
    ensures |BytesOf(fs.data, chain)| == |chain| * size <= |written| - off
    ensures |BytesOf(fs.data, chain[..|chain| - 1])| == (|chain| - 1) * size
  {
    BytesOfLength(fs, size, chain);
    BytesOfLength(fs, size, chain[..|chain| - 1]);
    TimesMonotone(|chain|, turns, size);
  }

  // ---- the way to the end of a file ----

  /** The content `all` is the first `m - 1` clusters and `rest` bytes from the next one on. */
  ghost predicate Walked(fs: Fs, size: nat, chain: seq<nat>, m: nat, rest: nat, all: seq<byte>) {
    && Readable(fs, size)
    && IsClosed(fs.fat, chain)
    && 1 <= m <= |chain|
    && all == BytesOf(fs.data, chain[..m - 1]) + Stream(fs, size, Some(Position(chain[m - 1], 0)), rest)
  }

  lemma {:induction false} WalkStarts(fs: Fs, size: nat, chain: seq<nat>, rest: nat)
    requires Readable(fs, size) && IsClosed(fs.fat, chain)
    ensures CursorOk(fs, Some(Position(chain[0], 0)))
    ensures Walked(fs, size, chain, 1, rest, Stream(fs, size, Some(Position(chain[0], 0)), rest))
    ensures |BytesOf(fs.data, chain[..0])| == 0
  {
  }

  lemma {:induction false} WalkGoesOn(fs: Fs, size: nat, chain: seq<nat>, m: nat, rest: nat, all: seq<byte>)
    requires Walked(fs, size, chain, m, rest, all) && size < rest
    ensures IsCluster(fs.fat, chain[m - 1]) && fs.fat[chain[m - 1]].Chain() == if m < |chain| then Some(chain[m]) else None
    ensures m < |chain| ==>
              && Walked(fs, size, chain, m + 1, rest - size, all)
              && |BytesOf(fs.data, chain[..m])| == |BytesOf(fs.data, chain[..m - 1])| + size
    ensures m == |chain| ==> Walked(fs, size, chain, m, size, all)
  {
    var c := chain[m - 1];
    var p := Position(c, 0);
    StreamSplits(fs, size, p, rest, size);
    assert fs.data[c][..size] == fs.data[c];
    if m < |chain| {
      assert fs.fat[c] == UsedChained(chain[m]);
      assert chain[..m][..m - 1] == chain[..m - 1];
      assert After(fs, p, size) == Some(Position(chain[m], 0));
    } else {
      assert After(fs, p, size) == None;
    }
  }

  lemma {:induction false} WalkEnds(fs: Fs, size: nat, chain: seq<nat>, m: nat, rest: nat, all: seq<byte>)
    requires Walked(fs, size, chain, m, rest, all) && rest <= size
    ensures Writing(fs, size, chain, m, rest, all)
    ensures |all| == |BytesOf(fs.data, chain[..m - 1])| + rest
  {
    assert chain[..m][..m - 1] == chain[..m - 1];
    assert Stream(fs, size, Some(Position(chain[m - 1], 0)), rest) == fs.data[chain[m - 1]][..rest];
  }
}
