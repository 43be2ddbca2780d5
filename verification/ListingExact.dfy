/** What a listing shows, told from the entries alone. The iterator of fs/fat.rs and the name reader of
    fs/fat/dir_entry.rs come to the same files. */
module ExactListings {
  import opened Bytes
  import opened DirEntries
  import opened LongNames
  import opened Listings

  /** Where the run of consecutive long entries that ends at `i` begins. */
  function RunStart(s: Entries, i: nat): (p: nat)
    requires i < |s|
    ensures p <= i && (s[i].Lfn? ==> forall j :: p <= j <= i ==> s[j].Lfn?)
  {
    if i > 0 && Follows(s[i - 1], s[i]) then RunStart(s, i - 1) else i
  }

  /** The short entry at `i` has a long name: the entry before it is part 1 of one, with the sum of this short name. */
  predicate LongAt(s: Entries, i: nat) {
    && 0 < i < |s| && s[i].Sfn? && s[i - 1].Lfn?
    && s[i - 1].lfn.Order() == 1 && s[i - 1].lfn.chksum == s[i].sfn.Checksum()
  }

  /** The code units of the long entries `p..i`; the parts of a name are stored last part first. */
  function UnitsOf(s: Entries, p: nat, i: nat): (u: Name)
    requires p <= i <= |s| && forall j :: p <= j < i ==> s[j].Lfn?
    ensures |u| == (i - p) * 13
    decreases i - p
  {
    if p == i then [] else UnitsOf(s, p + 1, i) + s[p].lfn.Units()
  }

  function NameAt(s: Entries, i: nat): Name
    requires i < |s| && s[i].Sfn?
  {
    if LongAt(s, i) then Trimmed(UnitsOf(s, RunStart(s, i - 1), i)) else ShortName(s[i].sfn)
  }

  /** The entry at `i` is the last one of a file that is shown. */
  predicate ShowsAt(s: Entries, i: nat)
    requires i < |s|
  {
    s[i].Sfn? && (LongAt(s, i) || !s[i].sfn.IsVolumeId()) && !IsDots(NameAt(s, i))
  }

  function FileAt(s: Entries, i: nat): Listed
    requires i < |s| && s[i].Sfn?
  {
    Listed(NameAt(s, i), s[i].sfn, if LongAt(s, i) then RunStart(s, i - 1) else i, i)
  }

  /** The files whose last entry is at `i` or behind, in order. */
  function ShownFrom(s: Entries, i: nat): seq<Listed>
    requires i <= End(s)
    decreases End(s) - i
  {
    if i == End(s) then [] else (if ShowsAt(s, i) then [FileAt(s, i)] else []) + ShownFrom(s, i + 1)
  }

  lemma {:induction false} UnitsMore(s: Entries, p: nat, i: nat)
    requires p <= i < |s| && forall j :: p <= j <= i ==> s[j].Lfn?
    ensures UnitsOf(s, p, i + 1) == s[i].lfn.Units() + UnitsOf(s, p, i)
    decreases i - p
  {
    if p < i {
      UnitsMore(s, p + 1, i);
    } else {
      assert UnitsOf(s, i + 1, i + 1) == [];
    }
  }

  /** What the reader knows before entry `i`. */
  ghost predicate Knows(s: Entries, r: Reader, start: nat, i: nat)
    requires i <= |s|
  {
    match r
    case Init => start == i && (0 < i < |s| ==> !Follows(s[i - 1], s[i])) && !LongAt(s, i)
    case Collecting(checksum, order, buf) =>
      && 0 < i && s[i - 1].Lfn? && s[i - 1].lfn.chksum == checksum && s[i - 1].lfn.Order() == order + 1
      && start == RunStart(s, i - 1) && order * 13 <= |buf| && buf[order * 13..] == UnitsOf(s, start, i)
  }

  ghost predicate NoOrphans(s: Entries) {
    forall j: nat :: j < End(s) ==> !IsOrphan(s, j)
  }

  /** A long entry that is read goes into the name. */
  lemma {:induction false} KnowsPart(s: Entries, checksum: byte, order: nat, buf: Name, start: nat, i: nat)
    requires i < |s| && Knows(s, Collecting(checksum, order, buf), start, i) && s[i].Lfn? && order > 0
    requires s[i].lfn.Order() == order && s[i].lfn.chksum == checksum
    ensures Knows(s, Collecting(checksum, order - 1, Splice(buf, (order - 1) * 13, s[i].lfn.Units())), start, i + 1)
  {
    hide LfnEntry.Units, LfnEntry.Order, UnitsOf;
    assert Follows(s[i - 1], s[i]);
    var u := s[i].lfn.Units();
    UnitsMore(s, start, i);
    assert Splice(buf, (order - 1) * 13, u)[(order - 1) * 13..] == u + buf[order * 13..];
  }

  lemma {:induction false} KnowsFirst(s: Entries, i: nat)
    requires i < |s| && Knows(s, Init, i, i) && s[i].Lfn? && s[i].lfn.IsLastEntry()
    ensures var order := s[i].lfn.Order();
            Knows(s, Collecting(s[i].lfn.chksum, order - 1, Splice(seq(order * 13, _ => 0), (order - 1) * 13, s[i].lfn.Units())), i, i + 1)
  {
    var order, u := s[i].lfn.Order(), s[i].lfn.Units();
    hide LfnEntry.Units;
    UnitsMore(s, i, i);
    assert UnitsOf(s, i, i) == [] && u + [] == u;
    assert Splice(seq(order * 13, _ => 0), (order - 1) * 13, u)[(order - 1) * 13..] == u;
  }

  lemma {:induction false} KnowsAnew(s: Entries, i: nat)
    requires i < |s| && !s[i].Lfn?
    ensures Knows(s, Init, i + 1, i + 1)
  {
  }

  /** A listing from a point on where the reader knows what came before. */
  lemma {:induction false} ListIs(s: Entries, r: Reader, start: nat, i: nat)
    requires i <= End(s) && NoOrphans(s) && Knows(s, r, start, i)
    ensures List(s, r, start, i) == Some(ShownFrom(s, i))
    decreases End(s) - i, if r.Init? then 0 else 1, 1
  {
    if i == End(s) {
      ListEnds(s, r, start, i);
    } else if r.Init? {
      ListAnew(s, i);
    } else {
      ListOn(s, r, start, i);
    }
  }

  lemma {:induction false} ListEnds(s: Entries, r: Reader, start: nat, i: nat)
    requires i == End(s)
    ensures List(s, r, start, i) == Some([]) == Some(ShownFrom(s, i))
  {
    if i < |s| && r.Collecting? {
      assert List(s, r, start, i) == List(s, Init, i, i);
    }
  }

  lemma {:induction false} ListAnew(s: Entries, i: nat)
    requires i < End(s) && NoOrphans(s) && Knows(s, Init, i, i)
    ensures List(s, Init, i, i) == Some(ShownFrom(s, i))
    decreases End(s) - i, 0, 0
  {
    hide ShortName, IsDots, LfnEntry.Units, NameAt, Trimmed, LfnEntry.Order;
    assert !IsOrphan(s, i);
    if s[i].Lfn? {
      KnowsFirst(s, i);
      var (r', a) := Read(Init, s[i]);
      ListIs(s, r', i, i + 1);
      assert [] + ShownFrom(s, i + 1) == ShownFrom(s, i + 1);
    } else {
      KnowsAnew(s, i);
      ListIs(s, Init, i + 1, i + 1);
      PassAnew(s, i);
    }
  }

  /** An entry that is not a long one, with no name begun. */
  lemma {:induction false} PassAnew(s: Entries, i: nat)
    requires i < End(s) && !s[i].Lfn? && !LongAt(s, i) && List(s, Init, i + 1, i + 1) == Some(ShownFrom(s, i + 1))
    ensures List(s, Init, i, i) == Some(ShownFrom(s, i))
  {
    hide ShortName, IsDots, SfnEntry.IsVolumeId;
    assert [] + ShownFrom(s, i + 1) == ShownFrom(s, i + 1);
  }

  lemma {:induction false} ListOn(s: Entries, r: Reader, start: nat, i: nat)
    requires i < End(s) && NoOrphans(s) && r.Collecting? && Knows(s, r, start, i)
    ensures List(s, r, start, i) == Some(ShownFrom(s, i))
    decreases End(s) - i, 1, 0
  {
    hide ShortName, IsDots, LfnEntry.Units, Trimmed, LfnEntry.Order, ShownFrom, UnitsOf, NameAt, RunStart;
    assert !IsOrphan(s, i);
    if s[i].Lfn? && s[i].lfn.Order() == r.order && s[i].lfn.chksum == r.checksum {
      assert Follows(s[i - 1], s[i]);
      KnowsPart(s, r.checksum, r.order, r.buf, start, i);
      var (r', a) := Read(r, s[i]);
      ListIs(s, r', start, i + 1);
      PassPart(s, i);
    } else if LongAt(s, i) {
      KnowsAnew(s, i);
      ListIs(s, Init, i + 1, i + 1);
      Completes(s, r, start, i);
    } else {
      ListAnew(s, i);
    }
  }

  lemma PassPart(s: Entries, i: nat)
    requires i < End(s) && s[i].Lfn?
    ensures ShownFrom(s, i) == ShownFrom(s, i + 1)
  {
  }

  /** The short entry of a long name. */
  lemma {:induction false} Completes(s: Entries, r: Reader, start: nat, i: nat)
    requires i < End(s) && r.Collecting? && Knows(s, r, start, i) && LongAt(s, i)
    requires List(s, Init, i + 1, i + 1) == Some(ShownFrom(s, i + 1))
    ensures List(s, r, start, i) == Some(ShownFrom(s, i))
  {
    hide ShortName, IsDots, LfnEntry.Units, Trimmed, LfnEntry.Order, UnitsOf, RunStart, Sum;
    assert r.buf == r.buf[0..];
    assert NameAt(s, i) == Trimmed(r.buf);
    assert [] + ShownFrom(s, i + 1) == ShownFrom(s, i + 1);
  }

  /** A listing that ends shows exactly this: every short entry before the terminal is the last one of a file, unless it
      is a volume label without a long name or is shown as dots. It has the long name whose parts stand before it, if part
      1 is there with its sum, and otherwise its short name. */
  lemma {:induction false} ListingExact(s: Entries)
    ensures Files(s).Some? <==> NoOrphans(s)
    ensures NoOrphans(s) ==> Files(s) == Some(ShownFrom(s, 0))
  {
    hide List, ShownFrom;
    ListingEnds(s, Init, 0, 0);
    if NoOrphans(s) {
      ListIs(s, Init, 0, 0);
    }
  }
}
