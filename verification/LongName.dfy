/** Short and long file names, fs/fat/dir_entry.rs. */
module LongNames {
  import opened Bytes
  import opened DirEntries

  const DOT: u16 := 0x2e
  const SPACE: byte := 0x20

  predicate IsLower(c: u16) {
    0x61 <= c <= 0x7a
  }

  predicate IsUpper(c: u16) {
    0x41 <= c <= 0x5a
  }

  function ToUpper(c: u16): u16 {
    if IsLower(c) then c - 0x20 else c
  }

  /** Digits, letters and ! # $ % & ' ( ) - @ ^ _ ` { } ~ */
  predicate IsSfnChar(c: u16) {
    || 0x30 <= c <= 0x39 || IsUpper(c) || IsLower(c)
    || c == 0x21 || 0x23 <= c <= 0x29 || c == 0x2d || c == 0x40 || 0x5e <= c <= 0x60 || c == 0x7b || c == 0x7d || c == 0x7e
  }

  /** Everything but \ / : * ? " < > | */
  predicate IsLfnChar(c: u16) {
    c !in {0x5c, 0x2f, 0x3a, 0x2a, 0x3f, 0x22, 0x3c, 0x3e, 0x7c}
  }

  predicate AllSfn(n: Name) {
    forall i :: 0 <= i < |n| ==> IsSfnChar(n[i])
  }

  predicate HasLower(n: Name) {
    exists i :: 0 <= i < |n| && IsLower(n[i])
  }

  predicate HasUpper(n: Name) {
    exists i :: 0 <= i < |n| && IsUpper(n[i])
  }

  function FindDot(n: Name): (k: nat)
    ensures k <= |n|
    ensures k < |n| ==> n[k] == DOT
  {
    if n == [] || n[0] == DOT then 0 else FindDot(n[1..]) + 1
  }

  /** The characters in upper case, filled up with spaces. */
  function Field(n: Name, width: nat): (b: seq<byte>)
    requires |n| <= width && AllSfn(n)
    ensures |b| == width
  {
    seq(width, i requires 0 <= i => if i < |n| then ToUpper(n[i]) else SPACE)
  }

  /** A name part that fits a field of the short name: short characters only, of one case. */
  predicate FitsField(n: Name, least: nat, width: nat) {
    least <= |n| <= width && AllSfn(n) && !(HasLower(n) && HasUpper(n))
  }

  function Base(name: Name): Name {
    name[..FindDot(name)]
  }

  function Ext(name: Name): Name {
    if FindDot(name) < |name| then name[FindDot(name) + 1..] else []
  }

  /** SfnEntry::set_name succeeds. */
  predicate IsShortName(name: Name) {
    FitsField(Base(name), 1, 8) && FitsField(Ext(name), if FindDot(name) < |name| then 1 else 0, 3)
  }

  function SetName(e: SfnEntry, name: Name): (r: SfnEntry)
    requires IsShortName(name)
    ensures r.Valid()
  {
    var base, ext := Base(name), Ext(name);
    e.(name := Field(base, 8) + Field(ext, 3),
       ntRes := WithBit(WithBit(e.ntRes, BASE_LOWER, HasLower(base)), EXT_LOWER, HasLower(ext)))
  }

  /** The short characters of a name in upper case. */
  function ShortChars(name: Name): (b: seq<byte>)
    ensures forall i :: 0 <= i < |b| ==> 0x21 <= b[i] <= 0x7e
  {
    if name == [] then []
    else (if IsSfnChar(name[0]) then [ToUpper(name[0]) as byte] else []) + ShortChars(name[1..])
  }

  /** The stand-in for a long name: its first eleven short characters. */
  function GenerateName(name: Name): (b: seq<byte>)
    ensures |b| == 11
  {
    var s := ShortChars(name);
    seq(11, i requires 0 <= i => if i < |s| then s[i] else SPACE)
  }

  /** A character of the short name as shown; others than visible ASCII are replaced. */
  function ShownChar(c: byte, lower: bool): u16 {
    if IsUpper(c) && lower then c + 0x20 else if 0x21 <= c <= 0x7e then c else 0xfffd
  }

  function Shown(b: seq<byte>, lower: bool): Name {
    if b == [] || b[0] == SPACE then [] else [ShownChar(b[0], lower)] + Shown(b[1..], lower)
  }

  /** SfnEntry::name. */
  function ShortName(e: SfnEntry): Name
    requires e.Valid()
  {
    Shown(e.name[..8], HasBit(e.ntRes, BASE_LOWER))
    + (if e.name[8] != SPACE then [DOT] else [])
    + Shown(e.name[8..], HasBit(e.ntRes, EXT_LOWER))
  }

  /** A field shows the part it was made from. */
  lemma {:induction false} FieldShows(n: Name, least: nat, width: nat)
    requires FitsField(n, least, width)
    ensures Shown(Field(n, width), HasLower(n)) == n
  {
    ShownPrefix(Field(n, width), n, HasLower(n));
  }

  lemma {:induction false} ShownPrefix(b: seq<byte>, n: Name, lower: bool)
    requires |n| <= |b| && AllSfn(n)
    requires forall i :: 0 <= i < |n| ==> b[i] == ToUpper(n[i])
    requires |n| < |b| ==> b[|n|] == SPACE
    requires forall i :: 0 <= i < |n| ==> if lower then !IsUpper(n[i]) else !IsLower(n[i])
    ensures Shown(b, lower) == n
  {
    if n != [] {
      assert IsSfnChar(n[0]) && b[0] == ToUpper(n[0]);
      assert ShownChar(b[0], lower) == n[0];
      ShownPrefix(b[1..], n[1..], lower);
    }
  }

  /** A short name that is set is the name that is shown. */
  lemma {:induction false} SetNameRoundTrip(e: SfnEntry, name: Name)
    requires IsShortName(name)
    ensures ShortName(SetName(e, name)) == name
  {
    var base, ext, k := Base(name), Ext(name), FindDot(name);
    var r := SetName(e, name);
    FieldShows(base, 1, 8);
    FieldShows(ext, 0, 3);
    assert r.name[..8] == Field(base, 8) && r.name[8..] == Field(ext, 3);
    KeepsBit(WithBit(e.ntRes, BASE_LOWER, HasLower(base)), HasLower(ext));
    if k < |name| {
      assert r.name[8] == ToUpper(ext[0]);
      assert name == base + [DOT] + ext;
    } else {
      assert name == base + [] + ext;
    }
  }

  lemma KeepsBit(x: byte, on: bool)
    ensures HasBit(WithBit(x, EXT_LOWER, on), BASE_LOWER) == HasBit(x, BASE_LOWER)
  {
    assert (x + 0x10) / 0x08 == x / 0x08 + 2;
    assert x >= 0x10 ==> (x - 0x10) / 0x08 == x / 0x08 - 2;
  }

  // ---- long names ----

  function Padding(n: nat): (k: nat)
    ensures (n + k) % 13 == 0 && k < 13
  {
    (13 - n % 13) % 13
  }

  /** Filled up to whole entries: one zero unit, then 0xffff. */
  function Padded(name: Name): (p: Name)
    ensures |p| % 13 == 0 && |name| <= |p| < |name| + 13
    ensures p[..|name|] == name
    ensures |name| < |p| ==> p[|name|] == 0x0000
    ensures forall i :: |name| < i < |p| ==> p[i] == 0xffff
  {
    name + seq(Padding(|name|), i => if i == 0 then 0x0000 else 0xffff)
  }

  function LfnOf(order: nat, last: bool, chksum: byte, units: Name): (e: LfnEntry)
    requires 1 <= order <= 20 && |units| == 13
    ensures e.Valid()
  {
    LfnEntry(if last then order + LAST_LONG_ENTRY else order, ToLe(units[..5]), LONG_FILE_NAME, 0, chksum,
             ToLe(units[5..11]), 0, ToLe(units[11..]))
  }

  /** The entries for the units `buf`, orders `order` down to 1. */
  function Parts(buf: Name, order: nat, chksum: byte): seq<DirEntry>
    requires order * 13 <= |buf| && order <= 20
  {
    if order == 0 then []
    else [Lfn(LfnOf(order, order * 13 == |buf|, chksum, buf[(order - 1) * 13..order * 13]))] + Parts(buf, order - 1, chksum)
  }

  /** DirEntry::lfn_sequence: one short entry, or long entries in descending order and a stand-in. */
  function LfnSequence(name: Name, sfn: SfnEntry): Option<seq<DirEntry>> {
    if IsShortName(name) then Some([Sfn(SetName(sfn, name))])
    else if (forall i :: 0 <= i < |name| ==> IsLfnChar(name[i])) && |name| <= 255 then
      var e := sfn.(name := GenerateName(name));
      var buf := Padded(name);
      Some(Parts(buf, |buf| / 13, e.Checksum()) + [Sfn(e)])
    else None
  }

  datatype Reader = Init | Collecting(checksum: byte, order: nat, buf: Name)

  /** `Panic` is the index below zero that a further entry of order 0 asks for. */
  datatype ReadResult = Meta(e: DirEntry) | Complete(name: Name, sfn: SfnEntry) | Incomplete | Broken(e: DirEntry) | Panic

  function DropPadding(buf: Name): (b: Name)
    ensures |b| <= |buf|
  {
    if buf != [] && buf[|buf| - 1] == 0xffff then DropPadding(buf[..|buf| - 1]) else buf
  }

  /** The name without its terminator and padding. */
  function Trimmed(buf: Name): Name {
    var b := DropPadding(buf);
    if b != [] && b[|b| - 1] == 0x0000 then b[..|b| - 1] else b
  }

  /** LfnReader::read. */
  function Read(r: Reader, e: DirEntry): (Reader, ReadResult)
    requires e.Valid()
  {
    match r
    case Init =>
      (match e
       case Lfn(lfn) =>
         if lfn.IsLastEntry() then
           var order := lfn.Order();
           (Collecting(lfn.chksum, order - 1, Splice(seq(order * 13, _ => 0), (order - 1) * 13, lfn.Units())), Incomplete)
         else (Init, Broken(e))
       case Sfn(sfn) => (Init, if sfn.IsVolumeId() then Meta(e) else Complete(ShortName(sfn), sfn))
       case _ => (Init, Meta(e)))
    case Collecting(checksum, order, buf) =>
      match e
      case Lfn(lfn) =>
        if order != lfn.Order() || checksum != lfn.chksum then (Init, Broken(e))
        else if order == 0 || |buf| < order * 13 then (Init, Panic)
        else (Collecting(checksum, order - 1, Splice(buf, (order - 1) * 13, lfn.Units())), Incomplete)
      case Sfn(sfn) => (Init, if order == 0 && checksum == sfn.Checksum() then Complete(Trimmed(buf), sfn) else Broken(e))
      case _ => (Init, Broken(e))
  }

  /** The first answer other than Incomplete, with the number of entries it took; `None` if the
      entries end before. */
  function Feed(r: Reader, es: seq<DirEntry>): Option<(ReadResult, nat)>
    requires forall i :: 0 <= i < |es| ==> es[i].Valid()
    decreases |es|
  {
    if es == [] then None else
    var (r', a) := Read(r, es[0]);
    if !a.Incomplete? then Some((a, 1)) else
    match Feed(r', es[1..])
    case None => None
    case Some(t) => Some((t.0, t.1 + 1))
  }

  lemma {:induction false} LfnOfReads(order: nat, last: bool, chksum: byte, units: Name)
    requires 1 <= order <= 20 && |units| == 13
    ensures var e := LfnOf(order, last, chksum, units);
            && e.Units() == units && e.Order() == order && e.IsLastEntry() == last && e.chksum == chksum
            && Lfn(e).Encodable()
  {
    LeRoundTrip(units[..5]);
    LeRoundTrip(units[5..11]);
    LeRoundTrip(units[11..]);
    assert units == units[..5] + units[5..11] + units[11..];
    assert (order + LAST_LONG_ENTRY) / 0x40 == 1;
  }

  ghost predicate AllValid(es: seq<DirEntry>) {
    forall i :: 0 <= i < |es| ==> es[i].Valid()
  }

  lemma {:induction false} PartsValid(buf: Name, order: nat, chksum: byte)
    requires order * 13 <= |buf| && order <= 20
    ensures |Parts(buf, order, chksum)| == order
    ensures forall e :: e in Parts(buf, order, chksum) ==> e.Lfn? && e.Valid() && e.Encodable()
  {
    if order > 0 {
      PartsValid(buf, order - 1, chksum);
      LfnOfReads(order, order * 13 == |buf|, chksum, buf[(order - 1) * 13..order * 13]);
    }
  }

  lemma {:induction false} FeedOne(r: Reader, e: DirEntry, es: seq<DirEntry>)
    requires e.Valid() && AllValid(es) && Read(r, e).1.Incomplete?
    ensures AllValid([e] + es)
    ensures Feed(r, [e] + es) == match Feed(Read(r, e).0, es) case None => None case Some(t) => Some((t.0, t.1 + 1))
  {
    assert ([e] + es)[1..] == es;
  }

  /** From the middle of a sequence the reader collects the rest of the units. */
  lemma {:induction false} FeedParts(buf: Name, order: nat, chksum: byte, b: Name, e: SfnEntry, rest: seq<DirEntry>)
    requires order * 13 <= |buf| == |b| && order <= 20 && b[order * 13..] == buf[order * 13..]
    requires e.Valid() && e.Checksum() == chksum && AllValid(rest)
    ensures AllValid(Parts(buf, order, chksum) + [Sfn(e)] + rest)
    ensures Feed(Collecting(chksum, order, b), Parts(buf, order, chksum) + [Sfn(e)] + rest)
         == Some((Complete(Trimmed(buf), e), order + 1))
  {
    hide Sum, ShortName, Trimmed, LfnOf, Read, Feed;
    PartsValid(buf, order, chksum);
    if order == 0 {
      assert b == buf;
      FeedShort(chksum, b, e, rest);
    } else {
      var units := buf[(order - 1) * 13..order * 13];
      var first := LfnOf(order, order * 13 == |buf|, chksum, units);
      var tail := Parts(buf, order - 1, chksum) + [Sfn(e)] + rest;
      assert Parts(buf, order, chksum) + [Sfn(e)] + rest == [Lfn(first)] + tail;
      var b' := Splice(b, (order - 1) * 13, units);
      LfnOfReads(order, order * 13 == |buf|, chksum, units);
      UnitsPut(buf, b, (order - 1) * 13);
      FeedParts(buf, order - 1, chksum, b', e, rest);
      ReadPart(chksum, order, b, first);
      FeedOne(Collecting(chksum, order, b), Lfn(first), tail);
    }
  }

  lemma {:induction false} ReadPart(chksum: byte, order: nat, b: Name, lfn: LfnEntry)
    requires lfn.Valid() && order > 0 && order * 13 <= |b| && lfn.Order() == order && lfn.chksum == chksum
    ensures Read(Collecting(chksum, order, b), Lfn(lfn)) == (Collecting(chksum, order - 1, Splice(b, (order - 1) * 13, lfn.Units())), Incomplete)
  {
    hide LfnEntry.Units, LfnEntry.Order;
  }

  lemma {:induction false} FeedShort(chksum: byte, b: Name, e: SfnEntry, rest: seq<DirEntry>)
    requires e.Valid() && e.Checksum() == chksum && AllValid(rest)
    ensures Parts(b, 0, chksum) + [Sfn(e)] + rest == [Sfn(e)] + rest
    ensures Feed(Collecting(chksum, 0, b), [Sfn(e)] + rest) == Some((Complete(Trimmed(b), e), 1))
  {
    hide Sum, ShortName, Trimmed;
    assert ([Sfn(e)] + rest)[0] == Sfn(e);
  }

  lemma UnitsPut(buf: Name, b: Name, at: nat)
    requires at + 13 <= |buf| == |b| && b[at + 13..] == buf[at + 13..]
    ensures |Splice(b, at, buf[at..at + 13])| == |buf| && Splice(b, at, buf[at..at + 13])[at..] == buf[at..]
  {
    assert buf[at..] == buf[at..at + 13] + buf[at + 13..];
  }

  /** The units a name is read back as: itself unless it fills its last entry and ends in what looks
      like padding. */
  lemma {:induction false} PaddingReadsBack(name: Name)
    ensures Trimmed(Padded(name)) == name
       <==> (|name| % 13 != 0 || name == [] || (name[|name| - 1] != 0x0000 && name[|name| - 1] != 0xffff))
  {
    var p := Padded(name);
    if |name| % 13 != 0 {
      DropsPadding(p, |name|);
      assert p[..|name| + 1][..|name|] == name;
    } else {
      assert p == name;
    }
  }

  lemma {:induction false} DropsPadding(buf: Name, k: nat)
    requires k < |buf| && buf[k] != 0xffff && (forall i :: k < i < |buf| ==> buf[i] == 0xffff)
    ensures DropPadding(buf) == buf[..k + 1]
    decreases |buf|
  {
    if k < |buf| - 1 {
      DropsPadding(buf[..|buf| - 1], k);
      assert buf[..|buf| - 1][..k + 1] == buf[..k + 1];
    }
  }

  predicate ReadsBack(name: Name) {
    || IsShortName(name)
    || |name| % 13 != 0
    || name == []
    || (name[|name| - 1] != 0x0000 && name[|name| - 1] != 0xffff)
  }

  /** Same short name; attributes, cluster, size and times may differ. */
  predicate SameName(a: SfnEntry, b: SfnEntry) {
    a.name == b.name && a.ntRes == b.ntRes
  }

  /** The entries made for a name, stored, loaded and read, give the name and the short entry, whatever
      is done to the attributes, cluster and size in between, and whatever follows. The name comes back
      exactly when it does not end like padding. */
  lemma {:induction false} LongNameRoundTrip(name: Name, sfn: SfnEntry, e: SfnEntry, rest: seq<DirEntry>)
    requires LfnSequence(name, sfn).Some? && LfnSequence(name, sfn).value[|LfnSequence(name, sfn).value| - 1].Sfn?
    requires SameName(e, LfnSequence(name, sfn).value[|LfnSequence(name, sfn).value| - 1].sfn)
    requires !e.IsVolumeId() && AllValid(rest)
    ensures var es := LfnSequence(name, sfn).value;
            var stored := es[|es| - 1 := Sfn(e)];
            && AllValid(stored) && AllValid(stored + rest)
            && (forall i :: 0 <= i < |stored| ==> Decode(Encode(stored[i])) == stored[i])
            && Feed(Init, stored + rest).Some?
            && var (a, taken) := Feed(Init, stored + rest).value;
               taken == |es| && a.Complete? && a.sfn == e && (a.name == name <==> ReadsBack(name))
  {
    hide Encode, Decode, Sum, ShortName;
    var es := LfnSequence(name, sfn).value;
    var stored := es[|es| - 1 := Sfn(e)];
    if IsShortName(name) {
      ShortSequence(name, sfn, e, rest);
      assert stored == [Sfn(e)];
    } else {
      var s := sfn.(name := GenerateName(name));
      var buf := Padded(name);
      var parts := Parts(buf, |buf| / 13, s.Checksum());
      assert es == parts + [Sfn(s)];
      assert stored == parts + [Sfn(e)];
      LongSequence(name, s.Checksum(), e, rest);
    }
  }

  lemma {:induction false} ShortSequence(name: Name, sfn: SfnEntry, e: SfnEntry, rest: seq<DirEntry>)
    requires IsShortName(name) && SameName(e, SetName(sfn, name)) && !e.IsVolumeId() && AllValid(rest)
    ensures e.Valid() && Decode(Encode(Sfn(e))) == Sfn(e)
    ensures AllValid([Sfn(e)] + rest) && Feed(Init, [Sfn(e)] + rest) == Some((Complete(name, e), 1))
  {
    SetNameRoundTrip(sfn, name);
    assert ShortName(e) == ShortName(SetName(sfn, name));
    assert e.name[0] == ToUpper(name[0]) && IsSfnChar(name[0]);
    NotLong(e);
    EntryRoundTrip(Sfn(e));
    assert ([Sfn(e)] + rest)[0] == Sfn(e);
  }

  lemma NotLong(e: SfnEntry)
    requires !e.IsVolumeId()
    ensures e.attr % 0x40 != LONG_FILE_NAME
  {
    assert e.attr == e.attr / 0x40 * 0x40 + e.attr % 0x40;
  }

  lemma {:induction false} LongSequence(name: Name, chksum: byte, e: SfnEntry, rest: seq<DirEntry>)
    requires |name| <= 255 && e.name == GenerateName(name) && e.Checksum() == chksum && !e.IsVolumeId() && AllValid(rest)
    ensures var buf := Padded(name);
            var stored := Parts(buf, |buf| / 13, chksum) + [Sfn(e)];
            && AllValid(stored) && AllValid(stored + rest)
            && (forall i :: 0 <= i < |stored| ==> Decode(Encode(stored[i])) == stored[i])
            && Feed(Init, stored + rest) == Some((Complete(if name == [] then ShortName(e) else Trimmed(buf), e), |stored|))
            && (Trimmed(buf) == name <==> (|name| % 13 != 0 || name == [] || (name[|name| - 1] != 0x0000 && name[|name| - 1] != 0xffff)))
            && (name == [] ==> ShortName(e) == [])
  {
    hide Sum, ShortName, Trimmed, LfnOf, LfnEntry.Units, LfnEntry.Order, LfnEntry.IsLastEntry, Encode, Decode;
    var buf := Padded(name);
    var num := |buf| / 13;
    var parts := Parts(buf, num, chksum);
    var stored := parts + [Sfn(e)];
    PartsValid(buf, num, chksum);
    StoredLoads(parts, e, name);
    PaddingReadsBack(name);
    if name == [] {
      NamelessShown(e);
      assert (stored + rest)[0] == Sfn(e);
    } else {
      LongSequenceFeeds(buf, num, chksum, e, rest);
      assert parts + [Sfn(e)] + rest == stored + rest;
    }
  }

  lemma {:induction false} StoredLoads(parts: seq<DirEntry>, e: SfnEntry, name: Name)
    requires forall p :: p in parts ==> p.Lfn? && p.Valid() && p.Encodable()
    requires e.name == GenerateName(name) && !e.IsVolumeId()
    ensures AllValid(parts + [Sfn(e)])
    ensures forall i :: 0 <= i < |parts| + 1 ==> Decode(Encode((parts + [Sfn(e)])[i])) == (parts + [Sfn(e)])[i]
  {
    hide Encode, Decode, DirEntry.Encodable;
    assert Sfn(e).Encodable() by {
      NotLong(e);
      GeneratedEncodable(e, name);
    }
    forall i | 0 <= i < |parts| + 1 ensures Decode(Encode((parts + [Sfn(e)])[i])) == (parts + [Sfn(e)])[i] {
      EntryRoundTrip((parts + [Sfn(e)])[i]);
    }
  }

  lemma GeneratedEncodable(e: SfnEntry, name: Name)
    requires e.name == GenerateName(name) && e.attr % 0x40 != LONG_FILE_NAME
    ensures Sfn(e).Encodable()
  {
  }

  lemma {:induction false} NamelessShown(e: SfnEntry)
    requires e.name == GenerateName([])
    ensures ShortName(e) == []
  {
    assert e.name[..8][0] == SPACE && e.name[8..][0] == SPACE;
  }

  lemma {:induction false} LongSequenceFeeds(buf: Name, num: nat, chksum: byte, e: SfnEntry, rest: seq<DirEntry>)
    requires 1 <= num <= 20 && |buf| == num * 13
    requires e.Valid() && e.Checksum() == chksum && AllValid(rest)
    ensures AllValid(Parts(buf, num, chksum) + [Sfn(e)] + rest)
    ensures Feed(Init, Parts(buf, num, chksum) + [Sfn(e)] + rest) == Some((Complete(Trimmed(buf), e), num + 1))
  {
    hide Sum, ShortName, Trimmed, LfnOf, LfnEntry.Units, LfnEntry.Order, LfnEntry.IsLastEntry;
    PartsValid(buf, num, chksum);
    var units := buf[(num - 1) * 13..num * 13];
    LfnOfReads(num, true, chksum, units);
    var first := Lfn(LfnOf(num, true, chksum, units));
    var tail := Parts(buf, num - 1, chksum) + [Sfn(e)] + rest;
    assert Parts(buf, num, chksum) + [Sfn(e)] + rest == [first] + tail;
    var b := Splice(seq(num * 13, _ => 0), (num - 1) * 13, units);
    assert b[(num - 1) * 13..] == buf[(num - 1) * 13..];
    FeedParts(buf, num - 1, chksum, b, e, rest);
    FeedOne(Init, first, tail);
  }
}
