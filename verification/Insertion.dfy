/** What inserting and erasing entries does to a directory, fs/fat.rs. */
module Insertions {
  import opened Bytes
  import opened DirEntries
  import opened LongNames
  import opened Listings

  /** `t` is `s` with `ws` written at `p`, grown if there was not enough room. */
  ghost predicate Overwritten(s: Entries, t: Entries, p: nat, ws: seq<DirEntry>) {
    && p <= |s| <= |t|
    && p + |ws| <= |t|
    && (p + |ws| <= |s| ==> |t| == |s|)
    && (forall j :: 0 <= j < p ==> t[j] == s[j])
    && (forall j :: 0 <= j < |ws| ==> t[p + j] == ws[j])
    && (forall j :: p + |ws| <= j < |s| ==> t[j] == s[j])
  }

  lemma {:induction false} OverwrittenMore(s: Entries, t: Entries, u: Entries, p: nat, ws: seq<DirEntry>, e: DirEntry)
    requires Overwritten(s, t, p, ws) && Overwritten(t, u, p + |ws|, [e])
    ensures Overwritten(s, u, p, ws + [e])
  {
  }

  /** Not in use: an unused entry, or anything from the terminal on. */
  predicate Free(s: Entries, j: nat)
    requires j < |s|
  {
    j >= End(s) || s[j].Unused?
  }

  /** The entries that an insertion writes, with a new terminal if the room was not enough. */
  function ToWrite(s: Entries, es: seq<DirEntry>): seq<DirEntry> {
    es + if Room(s, |es|).1 == |es| then [] else [UnusedTerminal]
  }

  /** Where an insertion of `need` entries ends, with the new terminal if it writes one. */
  function InsertEnd(s: Entries, need: nat): nat {
    var (p, l) := Room(s, need);
    p + need + if l == need then 0 else 1
  }

  lemma WritesToEnd(s: Entries, es: seq<DirEntry>)
    ensures Room(s, |es|).0 + |ToWrite(s, es)| == InsertEnd(s, |es|)
  {
  }

  /** There is a terminal, a run that is long enough, or a free entry at the very end. */
  ghost predicate CanInsert(s: Entries, need: nat) {
    || End(s) < |s|
    || (exists q: nat :: Run(s, q, need, End(s)))
    || (s != [] && s[|s| - 1].Unused?)
  }

  lemma {:induction false} RoomFound(s: Entries, need: nat)
    requires need > 0
    ensures var (p, l) := Room(s, need);
            && l <= need && p + l <= End(s)
            && (l == need ==> Run(s, p, need, End(s)))
            && (l < need && (l > 0 || End(s) < |s|) ==> p + l == End(s) && Run(s, p, l, End(s)))
            && (l > 0 || End(s) < |s| <==> CanInsert(s, need))
            && (l == 0 && End(s) == |s| > 0 ==> p < |s| && !Run(s, p, need, |s|))
  {
    hide End;
    SearchFinds(s, need, 0, 0, 0);
    var (p, l) := Room(s, need);
    if 0 < l < need && End(s) == |s| {
      assert s[|s| - 1].Unused?;
    }
  }

  /** An insertion overwrites free entries only, exactly in directories with a terminal, with enough
      room or with a free entry at the end. */
  lemma {:induction false} InsertsIntoFree(s: Entries, es: seq<DirEntry>)
    requires es != [] && s != []
    ensures var p := Room(s, |es|).0;
            CanInsert(s, |es|) <==> forall j :: p <= j < p + |ToWrite(s, es)| && j < |s| ==> Free(s, j)
  {
    hide End, Search;
    var (p, l) := Room(s, |es|);
    RoomFound(s, |es|);
    if CanInsert(s, |es|) {
      forall j | p <= j < p + |ToWrite(s, es)| && j < |s| ensures Free(s, j) {
        assert j < End(s) ==> s[j].Unused?;
      }
    } else {
      UsedEntry(s, p, |es|);
    }
  }

  /** A directory that is full to its last entry, with no terminal: the file in it is overwritten. */
  lemma FullDirectoryOverwritten(e: SfnEntry)
    requires e.Valid()
    ensures AllValid([Sfn(e)]) && !CanInsert([Sfn(e)], 1) && Room([Sfn(e)], 1) == (0, 0) && !Free([Sfn(e)], 0)
  {
    var s: Entries := [Sfn(e)];
    assert End(s) == 1;
    assert Search(s, 1, 1, 0, 0) == (0, 0);
    forall q: nat ensures !Run(s, q, 1, 1) {
      assert q == 0 ==> !s[q].Unused?;
    }
  }

  lemma {:induction false} UsedEntry(s: Entries, p: nat, need: nat)
    requires p < End(s) == |s| && !Run(s, p, need, |s|) && !CanInsert(s, need) && s != []
    ensures exists j :: p <= j < p + need && j < |s| && !Free(s, j)
  {
    hide End;
    if p + need <= |s| {
      var j :| p <= j < p + need && !s[j].Unused?;
      assert !Free(s, j);
    } else {
      assert !Free(s, |s| - 1);
    }
  }

  // ---- blocks ----

  /** `es` is the whole of a file's entries, read as `shown` with the short entry `e`. */
  ghost predicate IsBlock(es: Entries, shown: Name, e: SfnEntry) {
    && es != []
    && es[|es| - 1] == Sfn(e)
    && (forall i: nat :: i < |es| - 1 ==> JoinedAt(es, i))
    && (es[0].Lfn? ==> es[0].lfn.IsLastEntry())
    && (forall rest: Entries {:trigger Feed(Init, es + rest)} :: Feed(Init, es + rest) == Some((Complete(shown, e), |es|)))
  }

  lemma {:induction false} PartsJoined(buf: Name, order: nat, chksum: byte)
    requires 1 <= order <= 20 && order * 13 <= |buf|
    ensures |Parts(buf, order, chksum)| == order
    ensures var es := Parts(buf, order, chksum);
            && (forall i :: 0 <= i < order ==> es[i].Lfn? && es[i].Valid() && es[i].lfn.Order() == order - i && es[i].lfn.chksum == chksum)
            && (order * 13 == |buf| ==> es[0].lfn.IsLastEntry())
  {
    hide LfnOf, LfnEntry.Units, LfnEntry.Order, LfnEntry.IsLastEntry;
    LfnOfReads(order, order * 13 == |buf|, chksum, buf[(order - 1) * 13..order * 13]);
    if order > 1 {
      PartsJoined(buf, order - 1, chksum);
    } else {
      assert Parts(buf, 0, chksum) == [];
    }
  }

  /** The entries made for a name, with the short entry edited to `e`. */
  function Edited(name: Name, sfn: SfnEntry, e: SfnEntry): seq<DirEntry>
    requires LfnSequence(name, sfn).Some? && LfnSequence(name, sfn).value != []
  {
    var es := LfnSequence(name, sfn).value;
    es[|es| - 1 := Sfn(e)]
  }

  /** The short entry that ends the entries made for a name. */
  lemma {:induction false} SequenceEnds(name: Name, sfn: SfnEntry) returns (e: SfnEntry)
    requires LfnSequence(name, sfn).Some?
    ensures var es := LfnSequence(name, sfn).value;
            es != [] && es[|es| - 1] == Sfn(e) && e == sfn.(name := e.name, ntRes := e.ntRes)
  {
    hide Sum, ShortName, Trimmed, LfnOf, Parts, Padded, GenerateName, HasBit, WithBit, Field;
    if IsShortName(name) {
      e := SetName(sfn, name);
    } else {
      e := sfn.(name := GenerateName(name));
    }
  }

  /** The entries made for a name, whatever is done to attributes, cluster and size, are a block that
      is read as the name unless that ends like padding. */
  lemma {:induction false} SequenceIsBlock(name: Name, sfn: SfnEntry, e: SfnEntry) returns (shown: Name)
    requires LfnSequence(name, sfn).Some? && LfnSequence(name, sfn).value != []
    requires LfnSequence(name, sfn).value[|LfnSequence(name, sfn).value| - 1].Sfn?
    requires SameName(e, LfnSequence(name, sfn).value[|LfnSequence(name, sfn).value| - 1].sfn) && !e.IsVolumeId()
    ensures AllValid(Edited(name, sfn, e)) && IsBlock(Edited(name, sfn, e), shown, e)
    ensures shown == name <==> ReadsBack(name)
    ensures forall i :: 0 <= i < |Edited(name, sfn, e)| ==> Decode(Encode(Edited(name, sfn, e)[i])) == Edited(name, sfn, e)[i]
  {
    hide Encode, Decode, Sum, ShortName, Trimmed, LfnOf, Parts, Padded, LfnEntry.Units, LfnEntry.Order,
      LfnEntry.IsLastEntry, SetName, GenerateName, SfnEntry.IsVolumeId, Feed, IsShortName, IsLfnChar;
    var bs := Edited(name, sfn, e);
    LongNameRoundTrip(name, sfn, e, []);
    assert bs + [] == bs;
    shown := Feed(Init, bs).value.0.name;
    forall rest: Entries ensures Feed(Init, bs + rest) == Some((Complete(shown, e), |bs|)) {
      LongNameRoundTrip(name, sfn, e, rest);
      FeedStops(Init, bs, rest);
    }
    EditedJoined(name, sfn, e);
  }

  lemma {:induction false} EditedJoined(name: Name, sfn: SfnEntry, e: SfnEntry)
    requires LfnSequence(name, sfn).Some? && LfnSequence(name, sfn).value != []
    requires LfnSequence(name, sfn).value[|LfnSequence(name, sfn).value| - 1].Sfn?
    requires SameName(e, LfnSequence(name, sfn).value[|LfnSequence(name, sfn).value| - 1].sfn)
    ensures var bs := Edited(name, sfn, e);
            && (forall i: nat :: i < |bs| - 1 ==> JoinedAt(bs, i))
            && (bs[0].Lfn? ==> bs[0].lfn.IsLastEntry())
  {
    hide LfnSequence, LfnEntry.Order, LfnEntry.IsLastEntry, Sum;
    SequenceJoined(name, sfn);
    var es, bs := LfnSequence(name, sfn).value, Edited(name, sfn, e);
    forall i: nat | i < |bs| - 1 ensures JoinedAt(bs, i) {
      assert JoinedAt(es, i);
    }
  }

  lemma {:induction false} FeedStops(r: Reader, es: Entries, rest: Entries)
    requires Feed(r, es).Some?
    ensures Feed(r, es + rest) == Feed(r, es)
    decreases |es|
  {
    hide Read;
    if Read(r, es[0]).1.Incomplete? {
      FeedStops(Read(r, es[0]).0, es[1..], rest);
      assert (es + rest)[1..] == es[1..] + rest;
    }
  }

  lemma {:induction false} SequenceJoined(name: Name, sfn: SfnEntry)
    requires LfnSequence(name, sfn).Some?
    ensures var es := LfnSequence(name, sfn).value;
            && es != []
            && (forall i: nat :: i < |es| - 1 ==> JoinedAt(es, i))
            && (es[0].Lfn? ==> es[0].lfn.IsLastEntry())
  {
    hide Sum, ShortName, Trimmed, LfnOf, Parts, LfnEntry.Units, LfnEntry.Order, LfnEntry.IsLastEntry, SetName,
      GenerateName, IsShortName, IsLfnChar;
    if !IsShortName(name) {
      var buf := Padded(name);
      if |buf| > 0 {
        PartsJoined(buf, |buf| / 13, sfn.(name := GenerateName(name)).Checksum());
      } else {
        PartsValid(buf, 0, sfn.(name := GenerateName(name)).Checksum());
      }
    }
  }

  // ---- insertion ----

  /** `b` is `a` with `more` put in somewhere. */
  ghost predicate Adds(a: Option<seq<Listed>>, b: Option<seq<Listed>>, more: seq<Listed>) {
    match a
    case None => b == None
    case Some(a) => b.Some? && exists k :: 0 <= k <= |a| && b.value == a[..k] + more + a[k..]
  }

  lemma {:induction false} JoinAdds(a: Option<seq<Listed>>, more: seq<Listed>, c: Option<seq<Listed>>)
    ensures Adds(Join(a, c), Join(a, Plus(more, c)), more)
  {
    if a.Some? && c.Some? {
      var whole, k := a.value + c.value, |a.value|;
      assert a.value + (more + c.value) == whole[..k] + more + whole[k..];
    }
  }

  /** Names do not go on past a free entry. */
  lemma {:induction false} WholeCuts(s: Entries, p: nat)
    requires Whole(s) && p <= End(s) && (p == End(s) || s[p].Unused?)
    ensures CutAt(s, p)
  {
    hide End;
    assert p > 0 ==> WholeAt(s, p - 1);
  }

  lemma {:induction false} BlockListed(t: Entries, p: nat, es: Entries, shown: Name, e: SfnEntry)
    requires IsBlock(es, shown, e) && p + |es| <= |t| && (forall j :: 0 <= j < |es| ==> t[p + j] == es[j])
    ensures List(t, Init, p, p)
         == Plus(if IsDots(shown) then [] else [Listed(shown, e, p, p + |es| - 1)], List(t, Init, p + |es|, p + |es|))
  {
    hide Read, IsDots, Feed;
    var rest := t[p + |es|..];
    assert t[p..] == es + rest;
    assert Feed(Init, es + rest) == Some((Complete(shown, e), |es|));
    ListFeeds(t, Init, p, p, |es|, shown, e);
  }

  lemma {:induction false} CutPrefix(s: Entries, t: Entries, p: nat)
    requires p <= End(s) && p <= |t| && (forall j :: 0 <= j < p ==> t[j] == s[j]) && CutAt(s, p)
    ensures AllValid(s[..p])
    ensures Files(s) == Join(Files(s[..p]), List(s, Init, p, p))
    ensures Files(t) == Join(Files(s[..p]), List(t, Init, p, p))
  {
    hide End;
    assert t[..p] == s[..p];
    ListCuts(s, Init, 0, 0, p);
    ListCuts(t, Init, 0, 0, p);
  }

  /** An insertion adds exactly the one new file to the listing and moves no other. */
  lemma {:induction false} InsertAddsOne(s: Entries, t: Entries, es: Entries, shown: Name, e: SfnEntry)
    requires Whole(s) && IsBlock(es, shown, e) && CanInsert(s, |es|)
    requires Overwritten(s, t, Room(s, |es|).0, ToWrite(s, es))
    ensures var p := Room(s, |es|).0;
            Adds(Files(s), Files(t), if IsDots(shown) then [] else [Listed(shown, e, p, p + |es| - 1)])
  {
    hide End, Search, Read, IsDots, IsBlock, List, Whole;
    var (p, l) := Room(s, |es|);
    BlockFilled(es, shown, e);
    RoomFound(s, |es|);
    WholeCuts(s, p);
    CutPrefix(s, t, p);
    var q := p + |es|;
    BlockWritten(s, t, es);
    BlockListed(t, p, es, shown, e);
    RestListed(s, t, es);
    JoinAdds(Files(s[..p]), if IsDots(shown) then [] else [Listed(shown, e, p, q - 1)], List(s, Init, p, p));
  }

  lemma {:induction false} BlockFilled(es: Entries, shown: Name, e: SfnEntry)
    requires IsBlock(es, shown, e)
    ensures es != []
  {
  }

  lemma {:induction false} BlockWritten(s: Entries, t: Entries, es: Entries)
    requires Overwritten(s, t, Room(s, |es|).0, ToWrite(s, es))
    ensures forall j :: 0 <= j < |es| ==> t[Room(s, |es|).0 + j] == es[j]
  {
    hide Search;
    assert forall j :: 0 <= j < |es| ==> ToWrite(s, es)[j] == es[j];
  }

  /** What follows the room shows in both, or in neither. */
  lemma {:induction false} RestListed(s: Entries, t: Entries, es: Entries)
    requires es != [] && CanInsert(s, |es|)
    requires Overwritten(s, t, Room(s, |es|).0, ToWrite(s, es))
    ensures var (p, l) := Room(s, |es|);
            List(s, Init, p, p) == List(t, Init, p + |es|, p + |es|)
  {
    hide Search, Read, End;
    var (p, l) := Room(s, |es|);
    var q := p + |es|;
    RoomFound(s, |es|);
    if l == |es| {
      ListSkips(s, p, q);
      assert s[q..] == t[q..];
      ListAgrees(s, t, Init, q, q);
    } else {
      ListSkips(s, p, p + l);
      assert t[q] == ToWrite(s, es)[|es|] == UnusedTerminal;
      ReadsTerminal(t, Init, q);
      if End(s) < |s| {
        ReadsTerminal(s, Init, p + l);
      }
    }
  }

  lemma {:induction false} EndIs(t: Entries, q: nat)
    requires q <= |t| && (forall j :: 0 <= j < q ==> !t[j].UnusedTerminal?) && (q == |t| || t[q].UnusedTerminal?)
    ensures End(t) == q
  {
    hide EndFrom;
  }

  lemma {:induction false} BlockInUse(es: Entries, shown: Name, e: SfnEntry)
    requires IsBlock(es, shown, e)
    ensures forall j :: 0 <= j < |es| ==> !es[j].UnusedTerminal? && !es[j].Unused? && (es[j].Lfn? <==> j < |es| - 1)
    ensures es != [] && (es[0].Lfn? ==> es[0].lfn.IsLastEntry())
    ensures forall i: nat :: i < |es| - 1 ==> JoinedAt(es, i)
  {
    assert forall j: nat :: j < |es| - 1 ==> es[j].Lfn? by {
      forall j: nat | j < |es| - 1 ensures es[j].Lfn? {
        assert JoinedAt(es, j);
      }
    }
  }

  /** The terminal stays, or is written anew behind the inserted entries. */
  lemma {:induction false} InsertedEnd(s: Entries, t: Entries, es: Entries, shown: Name, e: SfnEntry)
    requires IsBlock(es, shown, e) && CanInsert(s, |es|)
    requires Overwritten(s, t, Room(s, |es|).0, ToWrite(s, es))
    ensures var (p, l) := Room(s, |es|);
            && End(t) == (if l == |es| then End(s) else p + |es|) && p + |es| <= End(t)
            && (End(s) < |s| ==> End(t) < |t|)
  {
    hide Search, Read, IsBlock, EndFrom;
    var (p, l) := Room(s, |es|);
    BlockInUse(es, shown, e);
    RoomFound(s, |es|);
    BlockWritten(s, t, es);
    var q := if l == |es| then End(s) else p + |es|;
    assert l < |es| ==> t[q] == ToWrite(s, es)[|es|] == UnusedTerminal;
    forall j | 0 <= j < q ensures !t[j].UnusedTerminal? {
      assert p <= j < p + |es| ==> t[p + (j - p)] == es[j - p];
    }
    EndIs(t, q);
  }

  lemma {:induction false} WholeBefore(s: Entries, t: Entries, p: nat, i: nat)
    requires Whole(s) && i < p <= End(s) && p <= End(t) && CutAt(s, p) && (forall j :: 0 <= j < p ==> t[j] == s[j])
    ensures WholeAt(t, i)
  {
    hide Joined, LfnEntry.IsLastEntry, End;
    assert WholeAt(s, i);
  }

  lemma {:induction false} WholeWithin(t: Entries, p: nat, es: Entries, shown: Name, e: SfnEntry, i: nat)
    requires IsBlock(es, shown, e) && p + |es| <= End(t) && (forall j :: 0 <= j < |es| ==> t[p + j] == es[j])
    requires p <= i < p + |es|
    ensures WholeAt(t, i)
  {
    hide Joined, LfnEntry.IsLastEntry, End, IsBlock;
    BlockInUse(es, shown, e);
    var k := i - p;
    assert t[p + k] == es[k];
    assert k + 1 < |es| ==> t[p + (k + 1)] == es[k + 1] && JoinedAt(es, k);
    assert k > 0 ==> t[p + (k - 1)] == es[k - 1];
  }

  lemma {:induction false} WholeBehind(s: Entries, t: Entries, q: nat, i: nat)
    requires Whole(s) && q <= i < End(s) == End(t) && CutAt(s, q) && (forall j :: q <= j < End(s) ==> t[j] == s[j])
    ensures WholeAt(t, i)
  {
    hide Joined, LfnEntry.IsLastEntry, End;
    assert WholeAt(s, i);
  }

  /** Names stay whole. */
  lemma {:induction false} InsertKeepsWhole(s: Entries, t: Entries, es: Entries, shown: Name, e: SfnEntry)
    requires Whole(s) && IsBlock(es, shown, e) && CanInsert(s, |es|)
    requires Overwritten(s, t, Room(s, |es|).0, ToWrite(s, es))
    ensures Whole(t)
  {
    hide Search, Read, IsBlock, End, WholeAt;
    var (p, l) := Room(s, |es|);
    BlockInUse(es, shown, e);
    RoomFound(s, |es|);
    BlockWritten(s, t, es);
    InsertedEnd(s, t, es, shown, e);
    WholeCuts(s, p);
    forall i | 0 <= i < End(t) ensures WholeAt(t, i) {
      if i < p {
        WholeBefore(s, t, p, i);
      } else if i < p + |es| {
        WholeWithin(t, p, es, shown, e, i);
      } else {
        WholeBehind(s, t, p + |es|, i);
      }
    }
  }

  // ---- a volume that is full ----

  lemma {:induction false} FeedPrefix(r: Reader, es: Entries, k: nat)
    requires Feed(r, es).Some? && k < Feed(r, es).value.1 && k <= |es|
    ensures AllValid(es[..k]) && Feed(r, es[..k]) == None
    decreases |es|
  {
    hide Read;
    if k > 0 {
      assert es[..k][0] == es[0] && es[..k][1..] == es[1..][..k - 1];
      FeedPrefix(Read(r, es[0]).0, es[1..], k - 1);
    }
  }

  lemma {:induction false} ListUnfinished(t: Entries, r: Reader, start: nat, i: nat)
    requires i <= |t| && AllValid(t[i..]) && Feed(r, t[i..]) == None
    ensures List(t, r, start, i) == Some([])
    decreases |t| - i
  {
    hide Read;
    if i < |t| {
      assert t[i..][0] == t[i] && t[i..][1..] == t[i + 1..];
      ListUnfinished(t, Read(r, t[i]).0, start, i + 1);
    }
  }

  /** Behind too little room nothing is listed. */
  lemma {:induction false} NothingBehind(s: Entries, need: nat)
    requires need > 0 && CanInsert(s, need) && Room(s, need).1 < need
    ensures Room(s, need).0 <= |s| && List(s, Init, Room(s, need).0, Room(s, need).0) == Some([])
  {
    hide Search, Read, End;
    var (p, l) := Room(s, need);
    RoomFound(s, need);
    ListSkips(s, p, p + l);
    if End(s) < |s| {
      ReadsTerminal(s, Init, p + l);
    }
  }

  /** A directory without a terminal whose last entry is in use. */
  ghost predicate Jammed(s: Entries) {
    s != [] && End(s) == |s| && !s[|s| - 1].Unused?
  }

  /** In such a directory only a run of unused entries that is long enough keeps the next insertion from
      overwriting entries in use. */
  lemma {:induction false} JammedInsert(s: Entries, es: seq<DirEntry>)
    requires Jammed(s) && es != []
    ensures (exists q: nat :: Run(s, q, |es|, |s|))
       <==> var p := Room(s, |es|).0; forall j :: p <= j < p + |ToWrite(s, es)| && j < |s| ==> Free(s, j)
  {
    hide End, Search;
    InsertsIntoFree(s, es);
  }

  lemma {:induction false} FailedJams(s: Entries, t: Entries, es: Entries, shown: Name, e: SfnEntry, k: nat)
    requires IsBlock(es, shown, e) && CanInsert(s, |es|)
    requires k < |ToWrite(s, es)| && |t| == Room(s, |es|).0 + k
    requires Overwritten(s, t, Room(s, |es|).0, ToWrite(s, es)[..k])
    ensures Jammed(t)
  {
    hide Search, IsBlock, End;
    var (p, l) := Room(s, |es|);
    BlockInUse(es, shown, e);
    RoomFound(s, |es|);
    assert forall j :: 0 <= j < k ==> t[p + j] == ToWrite(s, es)[..k][j] == es[j];
    forall j | 0 <= j < |t| ensures !t[j].UnusedTerminal? {
      if j < p {
        assert t[j] == s[j];
      } else {
        assert t[j] == t[p + (j - p)] == es[j - p];
      }
    }
    EndIs(t, |t|);
    assert k > 0;
    assert t[|t| - 1] == es[k - 1];
  }

  /** An insertion that runs out of clusters after `k` entries shows the new file only if just the
      terminal is missing, and all others in any case. But the terminal is lost. */
  lemma {:induction false} FailedInsert(s: Entries, t: Entries, es: Entries, shown: Name, e: SfnEntry, k: nat)
    requires Whole(s) && IsBlock(es, shown, e) && CanInsert(s, |es|)
    requires k < |ToWrite(s, es)| && |t| == Room(s, |es|).0 + k
    requires Overwritten(s, t, Room(s, |es|).0, ToWrite(s, es)[..k])
    ensures k < |es| ==> Files(t) == Files(s)
    ensures k == |es| ==> Adds(Files(s), Files(t), if IsDots(shown) then [] else [Listed(shown, e, |t| - k, |t| - 1)])
    ensures Jammed(t)
  {
    hide Search, Read, IsDots, IsBlock, List, Whole, End, Feed, Jammed;
    FailedJams(s, t, es, shown, e, k);
    var (p, l) := Room(s, |es|);
    BlockFilled(es, shown, e);
    RoomFound(s, |es|);
    WholeCuts(s, p);
    CutPrefix(s, t, p);
    assert forall j :: 0 <= j < k ==> t[p + j] == ToWrite(s, es)[..k][j] == es[j];
    NothingBehind(s, |es|);
    if k < |es| {
      BlockUnfinished(t, p, es, shown, e, k);
    } else {
      BlockListed(t, p, es, shown, e);
      ListedNothing(t);
      JoinAdds(Files(s[..p]), if IsDots(shown) then [] else [Listed(shown, e, p, |t| - 1)], List(s, Init, p, p));
    }
  }

  lemma {:induction false} ListedNothing(t: Entries)
    ensures List(t, Init, |t|, |t|) == Some([])
  {
  }

  lemma {:induction false} BlockUnfinished(t: Entries, p: nat, es: Entries, shown: Name, e: SfnEntry, k: nat)
    requires IsBlock(es, shown, e) && k < |es| && |t| == p + k && (forall j :: 0 <= j < k ==> t[p + j] == es[j])
    ensures List(t, Init, p, p) == Some([])
  {
    hide Read, Feed, List;
    assert es + [] == es;
    assert Feed(Init, es + []) == Some((Complete(shown, e), |es|));
    assert t[p..] == es[..k];
    FeedPrefix(Init, es, k);
    ListUnfinished(t, Init, p, p);
  }

  // ---- erasing ----

  /** The entries from `p` to before `q` become unused. */
  function Erased(s: Entries, p: nat, q: nat): (t: Entries)
    requires p <= q <= |s|
    ensures |t| == |s|
    ensures forall j :: 0 <= j < |s| ==> t[j] == if p <= j < q then Unused else s[j]
  {
    seq(|s|, j requires 0 <= j < |s| => if p <= j < q then Unused else s[j])
  }

  lemma {:induction false} ListedIn(s: Entries, f: Listed)
    requires Whole(s) && Files(s).Some? && f in Files(s).value
    ensures f.first <= f.last < End(s) && CutAt(s, f.first) && CutAt(s, f.last + 1)
    ensures List(s, Init, f.first, f.first) == Plus([f], List(s, Init, f.last + 1, f.last + 1))
  {
    hide End, Read, List, Whole;
    ListedBlock(s, Init, 0, 0, f);
  }

  /** Erasing the entries of a listed file takes exactly this file out of the listing. */
  lemma {:induction false} EraseRemovesOne(s: Entries, f: Listed)
    requires Whole(s) && Files(s).Some? && f in Files(s).value
    ensures f.first <= f.last < End(s)
    ensures Adds(Files(Erased(s, f.first, f.last + 1)), Files(s), [f])
  {
    hide Read, List, End, Whole;
    ListedIn(s, f);
    var t, p, q := Erased(s, f.first, f.last + 1), f.first, f.last + 1;
    CutPrefix(s, t, p);
    ListSkips(t, p, q);
    assert s[q..] == t[q..];
    ListAgrees(s, t, Init, q, q);
    JoinAdds(Files(s[..p]), [f], List(t, Init, q, q));
  }

  /** The terminal stays, and so do all other names. */
  lemma {:induction false} EraseKeepsWhole(s: Entries, f: Listed)
    requires Whole(s) && Files(s).Some? && f in Files(s).value
    ensures f.first <= f.last < End(s)
    ensures Whole(Erased(s, f.first, f.last + 1)) && End(Erased(s, f.first, f.last + 1)) == End(s)
  {
    hide Read, List, EndFrom, WholeAt;
    ListedIn(s, f);
    var t, p, q := Erased(s, f.first, f.last + 1), f.first, f.last + 1;
    EndIs(t, End(s));
    forall i: nat | i < End(t) ensures WholeAt(t, i) {
      if i < p {
        WholeBefore(s, t, p, i);
      } else if i >= q {
        WholeBehind(s, t, q, i);
      } else {
        WholeUnused(t, i);
      }
    }
  }

  lemma {:induction false} WholeUnused(t: Entries, i: nat)
    requires i < |t| && t[i].Unused?
    ensures WholeAt(t, i)
  {
  }

  // ---- editing the entry of a file ----

  lemma {:induction false} EditedRead(r: Reader, x: SfnEntry, e: SfnEntry)
    requires x.Valid() && e.Valid() && SameName(e, x) && e.IsVolumeId() == x.IsVolumeId()
    ensures Read(r, Sfn(x)).1.Complete? ==> Read(r, Sfn(e)).1 == Complete(Read(r, Sfn(x)).1.name, e)
  {
    hide Trimmed, Shown, HasBit;
  }

  /** From the middle of the block of `f` on. */
  lemma {:induction false} EditedBlock(s: Entries, t: Entries, f: Listed, e: SfnEntry, r: Reader, i: nat)
    requires Whole(s) && f.first <= i <= f.last < End(s) && s[f.last] == Sfn(f.sfn) && (forall j :: i <= j < f.last ==> s[j].Lfn?)
    requires ReaderAt(s, r, i) && (r.Init? ==> CutAt(s, i))
    requires e.Valid() && SameName(e, f.sfn) && e.IsVolumeId() == f.sfn.IsVolumeId() && t == s[f.last := Sfn(e)]
    requires List(s, Init, f.last + 1, f.last + 1).Some?
    requires List(s, r, f.first, i) == Plus([f], List(s, Init, f.last + 1, f.last + 1))
    ensures List(t, r, f.first, i) == Plus([f.(sfn := e)], List(s, Init, f.last + 1, f.last + 1))
    decreases f.last - i
  {
    hide Read, IsDots, End, ReaderAt, WholeAt, Joined;
    WholeReads(s, r, i);
    ReadKeeps(s, r, i);
    ReadsSfn(r, s[i]);
    var rest := List(s, Init, f.last + 1, f.last + 1);
    if i < f.last {
      EditedBlock(s, t, f, e, Read(r, s[i]).0, i + 1);
    } else {
      EditedRead(r, f.sfn, e);
      assert s[f.last + 1..] == t[f.last + 1..];
      ListAgrees(s, t, Init, f.last + 1, f.last + 1);
      assert |[f] + rest.value| == 1 + |rest.value| && ([f] + rest.value)[0] == f;
    }
  }

  /** `b` is `a` with `f` replaced by `g`. */
  ghost predicate Replaces(a: Option<seq<Listed>>, b: Option<seq<Listed>>, f: Listed, g: Listed) {
    a.Some? && b.Some? && exists k :: 0 <= k < |a.value| && a.value[k] == f && b.value == a.value[k := g]
  }

  lemma {:induction false} JoinReplaces(a: Option<seq<Listed>>, f: Listed, g: Listed, c: Option<seq<Listed>>)
    requires a.Some? && c.Some?
    ensures Replaces(Join(a, Plus([f], c)), Join(a, Plus([g], c)), f, g)
  {
    var x, k := a.value + ([f] + c.value), |a.value|;
    assert x[k] == f && a.value + ([g] + c.value) == x[k := g];
  }

  /** Changing attributes, cluster, size and times in the short entry of a file changes just that in the
      listing. */
  lemma {:induction false} EditKeepsListing(s: Entries, f: Listed, e: SfnEntry)
    requires Whole(s) && Files(s).Some? && f in Files(s).value
    requires e.Valid() && SameName(e, f.sfn) && e.IsVolumeId() == f.sfn.IsVolumeId()
    ensures f.last < End(s)
    ensures Replaces(Files(s), Files(s[f.last := Sfn(e)]), f, f.(sfn := e))
    ensures Whole(s[f.last := Sfn(e)]) && End(s[f.last := Sfn(e)]) == End(s)
  {
    hide Read, List, Whole, End;
    ListedBlock(s, Init, 0, 0, f);
    var t, p, q := s[f.last := Sfn(e)], f.first, f.last + 1;
    CutPrefix(s, t, p);
    CutReader(s, p);
    EditedBlock(s, t, f, e, Init, p);
    JoinReplaces(Files(s[..p]), f, f.(sfn := e), List(s, Init, q, q));
    EditKeepsWhole(s, f.last, f.sfn, e);
  }

  lemma CutReader(s: Entries, p: nat)
    requires CutAt(s, p)
    ensures ReaderAt(s, Init, p)
  {
  }

  lemma {:induction false} EditKeepsWhole(s: Entries, k: nat, x: SfnEntry, e: SfnEntry)
    requires Whole(s) && k < End(s) && s[k] == Sfn(x) && e.Valid() && SameName(e, x)
    ensures Whole(s[k := Sfn(e)]) && End(s[k := Sfn(e)]) == End(s)
  {
    hide EndFrom, LfnEntry.Order, LfnEntry.IsLastEntry, Sum;
    var t := s[k := Sfn(e)];
    EndIs(t, End(s));
    forall i: nat | i < End(t) ensures WholeAt(t, i) {
      assert WholeAt(s, i);
    }
  }

  /** Directories with whole names can be listed. */
  lemma {:induction false} WholeLists(s: Entries)
    requires Whole(s)
    ensures Files(s).Some?
  {
    hide Read, List;
    ListingEnds(s, Init, 0, 0);
    forall j: nat | j < End(s) ensures !IsOrphan(s, j) {
      assert WholeAt(s, j) && (j > 0 ==> WholeAt(s, j - 1));
    }
  }
}
