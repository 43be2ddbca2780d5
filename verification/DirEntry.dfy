/** Directory entries, their 32-byte form and long file names, fs/fat/dir_entry.rs. */
module DirEntries {
  import opened Bytes

  const SIZE: nat := 32

  const VOLUME_ID: nat := 0x08
  const DIRECTORY: nat := 0x10
  const ARCHIVE: nat := 0x20
  const LONG_FILE_NAME: nat := 0x0f
  const BASE_LOWER: nat := 0x08
  const EXT_LOWER: nat := 0x10
  const LAST_LONG_ENTRY: nat := 0x40

  /** File names as UTF-16 code units. */
  type Name = seq<u16>

  /** `x` with the bit `mask` set or cleared. */
  function WithBit(x: byte, mask: nat, on: bool): (r: byte)
    requires mask in {0x08, 0x10, 0x20, 0x40}
    ensures HasBit(r, mask) == on
  {
    FlipBit(x, mask);
    if HasBit(x, mask) == on then x else if on then x + mask else x - mask
  }

  lemma FlipBit(x: byte, mask: nat)
    requires mask in {0x08, 0x10, 0x20, 0x40}
    ensures !HasBit(x, mask) ==> x + mask < 0x100 && HasBit(x + mask, mask)
    ensures HasBit(x, mask) ==> mask <= x && !HasBit(x - mask, mask)
  {
    hide HasBit;
    if mask == 0x08 {
      FlipBit08(x);
    } else if mask == 0x10 {
      FlipBit10(x);
    } else if mask == 0x20 {
      FlipBit20(x);
    } else {
      FlipBit40(x);
    }
  }

  lemma FlipBit08(x: byte)
    ensures !HasBit(x, 0x08) ==> x + 0x08 < 0x100 && HasBit(x + 0x08, 0x08)
    ensures HasBit(x, 0x08) ==> 0x08 <= x && !HasBit(x - 0x08, 0x08)
  {
    assert (x + 0x08) / 0x08 == x / 0x08 + 1;
    assert x >= 0x08 ==> (x - 0x08) / 0x08 == x / 0x08 - 1;
  }

  lemma FlipBit10(x: byte)
    ensures !HasBit(x, 0x10) ==> x + 0x10 < 0x100 && HasBit(x + 0x10, 0x10)
    ensures HasBit(x, 0x10) ==> 0x10 <= x && !HasBit(x - 0x10, 0x10)
  {
    assert (x + 0x10) / 0x10 == x / 0x10 + 1;
    assert x >= 0x10 ==> (x - 0x10) / 0x10 == x / 0x10 - 1;
  }

  lemma FlipBit20(x: byte)
    ensures !HasBit(x, 0x20) ==> x + 0x20 < 0x100 && HasBit(x + 0x20, 0x20)
    ensures HasBit(x, 0x20) ==> 0x20 <= x && !HasBit(x - 0x20, 0x20)
  {
    assert (x + 0x20) / 0x20 == x / 0x20 + 1;
    assert x >= 0x20 ==> (x - 0x20) / 0x20 == x / 0x20 - 1;
  }

  lemma FlipBit40(x: byte)
    ensures !HasBit(x, 0x40) ==> x + 0x40 < 0x100 && HasBit(x + 0x40, 0x40)
    ensures HasBit(x, 0x40) ==> 0x40 <= x && !HasBit(x - 0x40, 0x40)
  {
    assert (x + 0x40) / 0x40 == x / 0x40 + 1;
    assert x >= 0x40 ==> (x - 0x40) / 0x40 == x / 0x40 - 1;
  }

  /** Setting or clearing a bit leaves the bits above and below as they are. */
  lemma OnlyBit(x: byte, mask: nat, on: bool)
    requires mask in {0x08, 0x10, 0x20, 0x40}
    ensures WithBit(x, mask, on) % mask == x % mask && WithBit(x, mask, on) / (2 * mask) == x / (2 * mask)
  {
    if mask == 0x08 {
      OnlyBit08(x, on);
    } else if mask == 0x10 {
      OnlyBit10(x, on);
    } else if mask == 0x20 {
      OnlyBit20(x, on);
    } else {
      OnlyBit40(x, on);
    }
  }

  lemma OnlyBit08(x: byte, on: bool)
    ensures WithBit(x, 0x08, on) % 0x08 == x % 0x08 && WithBit(x, 0x08, on) / 0x10 == x / 0x10
  {
    var h, b, l := x / 0x10, x / 0x08 % 2, x % 0x08;
    assert x == 0x10 * h + 0x08 * b + l;
  }

  lemma OnlyBit10(x: byte, on: bool)
    ensures WithBit(x, 0x10, on) % 0x10 == x % 0x10 && WithBit(x, 0x10, on) / 0x20 == x / 0x20
  {
    var h, b, l := x / 0x20, x / 0x10 % 2, x % 0x10;
    assert x == 0x20 * h + 0x10 * b + l;
  }

  lemma OnlyBit20(x: byte, on: bool)
    ensures WithBit(x, 0x20, on) % 0x20 == x % 0x20 && WithBit(x, 0x20, on) / 0x40 == x / 0x40
  {
    var h, b, l := x / 0x40, x / 0x20 % 2, x % 0x20;
    assert x == 0x40 * h + 0x20 * b + l;
  }

  lemma OnlyBit40(x: byte, on: bool)
    ensures WithBit(x, 0x40, on) % 0x40 == x % 0x40 && WithBit(x, 0x40, on) / 0x80 == x / 0x80
  {
    var h, b, l := x / 0x80, x / 0x40 % 2, x % 0x40;
    assert x == 0x80 * h + 0x40 * b + l;
  }

  /** Short file name entry. */
  datatype SfnEntry = SfnEntry(
    name: seq<byte>,
    attr: byte,
    ntRes: byte,
    crtTimeTenth: byte,
    crtTime: u16,
    crtDate: u16,
    lstAccDate: u16,
    fstClusHi: u16,
    wrtTime: u16,
    wrtDate: u16,
    fstClusLo: u16,
    fileSize: u32
  ) {

    predicate Valid() {
      |name| == 11
    }

    function Cluster(): Option<nat> {
      var index := fstClusLo as nat + 0x1_0000 * fstClusHi as nat;
      if index != 0 then Some(index) else None
    }

    /** Cluster numbers are cut to 32 bits. */
    function SetCluster(c: Option<nat>): SfnEntry {
      match c
      case Some(c) => this.(fstClusLo := c % 0x1_0000, fstClusHi := c / 0x1_0000 % 0x1_0000)
      case None => this.(fstClusLo := 0, fstClusHi := 0)
    }

    predicate IsDirectory() {
      HasBit(attr, DIRECTORY)
    }

    predicate IsVolumeId() {
      HasBit(attr, VOLUME_ID)
    }

    function MarkArchive(): SfnEntry {
      this.(attr := WithBit(attr, ARCHIVE, true))
    }

    function Checksum(): byte {
      Sum(name)
    }

    /** The same name and kind; cluster, size and the archive bit may differ. */
    predicate Keeps(e: SfnEntry) {
      name == e.name && ntRes == e.ntRes && IsDirectory() == e.IsDirectory() && IsVolumeId() == e.IsVolumeId()
    }
  }

  lemma MarkArchiveKeeps(e: SfnEntry)
    ensures e.MarkArchive().Keeps(e) && HasBit(e.MarkArchive().attr, ARCHIVE)
    ensures e.MarkArchive() == e.(attr := if e.attr / 0x20 % 2 == 1 then e.attr else e.attr + 0x20)
  {
    ArchiveBit(e.attr);
    hide HasBit, WithBit;
    ArchiveOnly(e.attr, DIRECTORY);
    ArchiveOnly(e.attr, VOLUME_ID);
  }

  lemma ArchiveBit(x: byte)
    ensures WithBit(x, ARCHIVE, true) == if x / 0x20 % 2 == 1 then x else x + 0x20
  {
  }

  lemma ArchiveOnly(x: byte, mask: nat)
    requires mask in {VOLUME_ID, DIRECTORY}
    ensures HasBit(WithBit(x, ARCHIVE, true), mask) == HasBit(x, mask)
  {
    if mask == DIRECTORY {
      assert (x + 0x20) / 0x10 == x / 0x10 + 2;
    } else {
      assert (x + 0x20) / 0x08 == x / 0x08 + 4;
    }
  }

  lemma SetClusterRoundTrip(e: SfnEntry, c: Option<nat>)
    ensures e.SetCluster(c).Cluster() == c <==> (c.Some? ==> 0 < c.value < 0x1_0000_0000)
  {
    if c.Some? && c.value < 0x1_0000_0000 {
      assert c.value / 0x1_0000 % 0x1_0000 == c.value / 0x1_0000;
    }
  }

  /** A byte rotated to the right by one bit. */
  function Rotated(s: byte): byte {
    s / 2 + s % 2 * 0x80
  }

  /** The upper seven bits become the lower ones, and the lowest bit the highest. */
  lemma RotatedBits(s: byte)
    ensures Rotated(s) % 0x80 == s / 2 && Rotated(s) / 0x80 == s % 2
  {
  }

  /** The rotating sum of the short name. */
  function Sum(name: seq<byte>): byte {
    if name == [] then 0 else (Rotated(Sum(name[..|name| - 1])) + name[|name| - 1]) % 0x100
  }

  lemma SumStep(x: byte, y: byte, c: byte, d: byte)
    requires (x == y) != (c == d)
    ensures (x + c) % 0x100 != (y + d) % 0x100
  {
    var p, q := (x + c) / 0x100, (y + d) / 0x100;
    assert x + c == 0x100 * p + (x + c) % 0x100 && y + d == 0x100 * q + (y + d) % 0x100;
    assert 0 <= p <= 1 && 0 <= q <= 1;
  }

  /** The sum tells apart any two names that differ in one byte. */
  lemma {:induction false} SumDiffers(a: seq<byte>, b: seq<byte>, i: nat)
    requires i < |a| == |b| && a[i] != b[i] && forall k :: 0 <= k < |a| && k != i ==> a[k] == b[k]
    ensures Sum(a) != Sum(b)
  {
    hide Rotated;
    var n := |a| - 1;
    var s, t := Sum(a[..n]), Sum(b[..n]);
    RotatedBits(s);
    RotatedBits(t);
    if i < n {
      SumDiffers(a[..n], b[..n], i);
      assert s == s / 2 * 2 + s % 2 && t == t / 2 * 2 + t % 2;
    } else {
      assert a[..n] == b[..n];
    }
    SumStep(Rotated(s), Rotated(t), a[n], b[n]);
  }

  /** Long file name entry. */
  datatype LfnEntry = LfnEntry(
    ord: byte,
    name1: seq<byte>,
    attr: byte,
    ty: byte,
    chksum: byte,
    name2: seq<byte>,
    fstClusLo: u16,
    name3: seq<byte>
  ) {

    predicate Valid() {
      |name1| == 10 && |name2| == 12 && |name3| == 4
    }

    function Order(): byte {
      if HasBit(ord, LAST_LONG_ENTRY) then ord - LAST_LONG_ENTRY else ord
    }

    predicate IsLastEntry() {
      HasBit(ord, LAST_LONG_ENTRY) && 1 <= Order() <= 20
    }

    /** The thirteen code units of the entry. */
    function Units(): (u: Name)
      requires Valid()
      ensures |u| == 13
    {
      FromLe(name1) + FromLe(name2) + FromLe(name3)
    }
  }

  /** A long entry begins a name exactly when its first byte is 0x40 and a number from 1 to 20; the number of a part is
      the first byte without 0x40. */
  lemma OrderBits(e: LfnEntry)
    ensures e.IsLastEntry() <==> 0x41 <= e.ord <= 0x54
    ensures e.Order() == if e.ord / 0x40 % 2 == 1 then e.ord - 0x40 else e.ord
  {
  }

  function FromLe(b: seq<byte>): (u: Name)
    requires |b| % 2 == 0
    ensures |u| == |b| / 2
  {
    if b == [] then [] else [U16FromLe(b[..2])] + FromLe(b[2..])
  }

  function ToLe(u: Name): (b: seq<byte>)
    ensures |b| == 2 * |u|
  {
    if u == [] then [] else U16ToLe(u[0]) + ToLe(u[1..])
  }

  lemma {:induction false} LeRoundTrip(u: Name)
    ensures FromLe(ToLe(u)) == u
  {
    if u != [] {
      LeRoundTrip(u[1..]);
      assert ToLe(u)[..2] == U16ToLe(u[0]) && ToLe(u)[2..] == ToLe(u[1..]);
    }
  }

  datatype DirEntry = UnusedTerminal | Unused | Lfn(lfn: LfnEntry) | Sfn(sfn: SfnEntry) {

    predicate Valid() {
      match this
      case Lfn(lfn) => lfn.Valid()
      case Sfn(sfn) => sfn.Valid()
      case _ => true
    }

    /** Has a 32-byte form that reads back as itself. */
    predicate Encodable() {
      match this
      case Lfn(lfn) => lfn.Valid() && lfn.ord != 0 && lfn.ord != 0xe5 && lfn.attr % 0x40 == LONG_FILE_NAME && lfn.fstClusLo == 0
      case Sfn(sfn) => sfn.Valid() && sfn.name[0] != 0 && sfn.name[0] != 0xe5 && sfn.attr % 0x40 != LONG_FILE_NAME
      case _ => true
    }
  }

  function EncodeSfn(e: SfnEntry): (b: seq<byte>)
    requires e.Valid()
    ensures |b| == SIZE
  {
    e.name + [e.attr, e.ntRes, e.crtTimeTenth]
    + U16ToLe(e.crtTime) + U16ToLe(e.crtDate) + U16ToLe(e.lstAccDate) + U16ToLe(e.fstClusHi)
    + U16ToLe(e.wrtTime) + U16ToLe(e.wrtDate) + U16ToLe(e.fstClusLo) + U32ToLe(e.fileSize)
  }

  function DecodeSfn(b: seq<byte>): (e: SfnEntry)
    requires |b| == SIZE
    ensures e.Valid()
  {
    SfnEntry(b[..11], b[11], b[12], b[13], U16FromLe(b[14..16]), U16FromLe(b[16..18]), U16FromLe(b[18..20]),
             U16FromLe(b[20..22]), U16FromLe(b[22..24]), U16FromLe(b[24..26]), U16FromLe(b[26..28]), U32FromLe(b[28..32]))
  }

  lemma {:induction false} SfnFields(e: SfnEntry)
    requires e.Valid()
    ensures var b := EncodeSfn(e);
            && b[..11] == e.name && b[11] == e.attr && b[12] == e.ntRes && b[13] == e.crtTimeTenth
            && b[14..16] == U16ToLe(e.crtTime) && b[16..18] == U16ToLe(e.crtDate) && b[18..20] == U16ToLe(e.lstAccDate)
            && b[20..22] == U16ToLe(e.fstClusHi) && b[22..24] == U16ToLe(e.wrtTime) && b[24..26] == U16ToLe(e.wrtDate)
            && b[26..28] == U16ToLe(e.fstClusLo) && b[28..32] == U32ToLe(e.fileSize)
  {
    hide U16ToLe, U32ToLe;
    var b := EncodeSfn(e);
    assert b[..11] == e.name;
    assert b[14..16] == U16ToLe(e.crtTime);
    assert b[16..18] == U16ToLe(e.crtDate);
    assert b[18..20] == U16ToLe(e.lstAccDate);
    assert b[20..22] == U16ToLe(e.fstClusHi);
    assert b[22..24] == U16ToLe(e.wrtTime);
    assert b[24..26] == U16ToLe(e.wrtDate);
    assert b[26..28] == U16ToLe(e.fstClusLo);
    assert b[28..32] == U32ToLe(e.fileSize);
  }

  lemma {:induction false} SfnRoundTrip(e: SfnEntry)
    requires e.Valid()
    ensures DecodeSfn(EncodeSfn(e)) == e
  {
    hide U16ToLe, U16FromLe, U32ToLe, U32FromLe, EncodeSfn;
    SfnFields(e);
  }

  /** The 16 bits at `i` of an entry, the low byte first. */
  function Word(b: seq<byte>, i: nat): nat
    requires i + 2 <= |b|
  {
    b[i] as nat + 0x100 * b[i + 1] as nat
  }

  lemma WordOf(b: seq<byte>, i: nat, x: u16)
    requires i + 2 <= |b| && b[i..i + 2] == U16ToLe(x)
    ensures Word(b, i) == x
  {
    assert b[i] == b[i..i + 2][0] && b[i + 1] == b[i..i + 2][1];
  }

  /** Where the fields of a short entry are in its 32 bytes, byte by byte. */
  lemma {:induction false} SfnLayout(e: SfnEntry)
    requires e.Valid()
    ensures var b := EncodeSfn(e);
            && b[..11] == e.name && b[11] == e.attr && b[12] == e.ntRes && b[13] == e.crtTimeTenth
            && Word(b, 14) == e.crtTime && Word(b, 16) == e.crtDate && Word(b, 18) == e.lstAccDate
            && Word(b, 20) == e.fstClusHi && Word(b, 22) == e.wrtTime && Word(b, 24) == e.wrtDate
            && Word(b, 26) == e.fstClusLo && Word(b, 28) + 0x1_0000 * Word(b, 30) == e.fileSize
            && e.Cluster() == (if Word(b, 26) + 0x1_0000 * Word(b, 20) == 0 then None else Some(Word(b, 26) + 0x1_0000 * Word(b, 20)))
            && (e.IsVolumeId() <==> b[11] / 0x08 % 2 == 1) && (e.IsDirectory() <==> b[11] / 0x10 % 2 == 1)
  {
    hide U16ToLe, U32ToLe, Word, EncodeSfn;
    var b := EncodeSfn(e);
    SfnFields(e);
    WordOf(b, 14, e.crtTime);
    WordOf(b, 16, e.crtDate);
    WordOf(b, 18, e.lstAccDate);
    WordOf(b, 20, e.fstClusHi);
    WordOf(b, 22, e.wrtTime);
    WordOf(b, 24, e.wrtDate);
    WordOf(b, 26, e.fstClusLo);
    DoubleWordOf(b, 28, e.fileSize);
  }

  lemma DoubleWordOf(b: seq<byte>, i: nat, x: u32)
    requires i + 4 <= |b| && b[i..i + 4] == U32ToLe(x)
    ensures Word(b, i) + 0x1_0000 * Word(b, i + 2) == x
  {
    var d := b[i..i + 4];
    assert d[..2] == U16ToLe(x % 0x1_0000) && d[2..] == U16ToLe(x / 0x1_0000);
    assert b[i..i + 2] == d[..2] && b[i + 2..i + 4] == d[2..];
    WordOf(b, i, x % 0x1_0000);
    WordOf(b, i + 2, x / 0x1_0000);
  }

  /** What was read is written as the same 32 bytes. */
  lemma {:induction false} SfnBytes(b: seq<byte>)
    requires |b| == SIZE
    ensures EncodeSfn(DecodeSfn(b)) == b
  {
    hide U16ToLe, U16FromLe, U32ToLe, U32FromLe;
    LeBytes(b[14..16]);
    LeBytes(b[16..18]);
    LeBytes(b[18..20]);
    LeBytes(b[20..22]);
    LeBytes(b[22..24]);
    LeBytes(b[24..26]);
    LeBytes(b[26..28]);
    LeBytes4(b[28..32]);
    FieldsTile(b);
  }

  lemma LeBytes(b: seq<byte>)
    requires |b| == 2
    ensures U16ToLe(U16FromLe(b)) == b
  {
  }

  lemma LeBytes4(b: seq<byte>)
    requires |b| == 4
    ensures U32ToLe(U32FromLe(b)) == b
  {
    var x := U32FromLe(b);
    assert x % 0x1_0000 == U16FromLe(b[..2]) && x / 0x1_0000 == U16FromLe(b[2..]);
    LeBytes(b[..2]);
    LeBytes(b[2..]);
    assert b == b[..2] + b[2..];
  }

  lemma {:induction false} FieldsTile(b: seq<byte>)
    requires |b| == SIZE
    ensures b[..11] + [b[11], b[12], b[13]] + b[14..16] + b[16..18] + b[18..20] + b[20..22] + b[22..24] + b[24..26] + b[26..28] + b[28..32] == b
  {
  }

  /** The reserved cluster field is written as zero. */
  function EncodeLfn(e: LfnEntry): (b: seq<byte>)
    requires e.Valid()
    ensures |b| == SIZE
  {
    [e.ord] + e.name1 + [e.attr, e.ty, e.chksum] + e.name2 + [0, 0] + e.name3
  }

  function DecodeLfn(b: seq<byte>): (e: LfnEntry)
    requires |b| == SIZE
    ensures e.Valid()
  {
    LfnEntry(b[0], b[1..11], b[11], b[12], b[13], b[14..26], U16FromLe(b[26..28]), b[28..32])
  }

  lemma {:induction false} LfnEntryRoundTrip(e: LfnEntry)
    requires e.Valid()
    ensures DecodeLfn(EncodeLfn(e)) == e.(fstClusLo := 0)
  {
    var b := EncodeLfn(e);
    assert b[1..11] == e.name1 && b[14..26] == e.name2 && b[26..28] == [0, 0] && b[28..32] == e.name3;
  }

  /** Where code unit `k` of a long entry begins in its 32 bytes. */
  function UnitAt(k: nat): (i: nat)
    requires k < 13
    ensures i + 2 <= SIZE
  {
    if k < 5 then 1 + 2 * k else if k < 11 then 14 + 2 * (k - 5) else 28 + 2 * (k - 11)
  }

  lemma {:induction false} FromLeAt(b: seq<byte>, k: nat)
    requires |b| % 2 == 0 && k < |b| / 2
    ensures FromLe(b)[k] == Word(b, 2 * k)
  {
    if k > 0 {
      FromLeAt(b[2..], k - 1);
    }
  }

  /** Where the fields of a long entry are in its 32 bytes, byte by byte. */
  lemma {:induction false} LfnLayout(e: LfnEntry, k: nat)
    requires e.Valid() && k < 13
    ensures var b := EncodeLfn(e);
            && b[0] == e.ord && b[11] == e.attr && b[12] == e.ty && b[13] == e.chksum && b[26] == 0 && b[27] == 0
            && Word(b, UnitAt(k)) == e.Units()[k]
  {
    hide FromLe, EncodeLfn, Word;
    var b := EncodeLfn(e);
    LfnFields(e);
    if k < 5 {
      FromLeAt(e.name1, k);
      WordWithin(b, 1, e.name1, 2 * k);
    } else if k < 11 {
      FromLeAt(e.name2, k - 5);
      WordWithin(b, 14, e.name2, 2 * (k - 5));
    } else {
      FromLeAt(e.name3, k - 11);
      WordWithin(b, 28, e.name3, 2 * (k - 11));
    }
  }

  lemma {:induction false} LfnFields(e: LfnEntry)
    requires e.Valid()
    ensures var b := EncodeLfn(e);
            && b[0] == e.ord && b[1..11] == e.name1 && b[11] == e.attr && b[12] == e.ty && b[13] == e.chksum
            && b[14..26] == e.name2 && b[26] == 0 && b[27] == 0 && b[28..32] == e.name3
  {
    var b := EncodeLfn(e);
    assert b[1..11] == e.name1;
    assert b[14..26] == e.name2;
    assert b[28..32] == e.name3;
  }

  lemma WordWithin(b: seq<byte>, at: nat, part: seq<byte>, i: nat)
    requires at + |part| <= |b| && b[at..at + |part|] == part && i + 2 <= |part|
    ensures Word(b, at + i) == Word(part, i)
  {
    assert b[at + i] == b[at..at + |part|][i] && b[at + i + 1] == b[at..at + |part|][i + 1];
  }

  /** What was read is written as the same 32 bytes, but for the reserved ones. */
  lemma {:induction false} LfnBytes(b: seq<byte>)
    requires |b| == SIZE
    ensures EncodeLfn(DecodeLfn(b)) == b[26 := 0][27 := 0]
  {
  }

  function Encode(e: DirEntry): (b: seq<byte>)
    requires e.Valid()
    ensures |b| == SIZE
  {
    match e
    case UnusedTerminal => seq(SIZE, _ => 0)
    case Unused => [0xe5] + seq(SIZE - 1, _ => 0)
    case Lfn(lfn) => EncodeLfn(lfn)
    case Sfn(sfn) => EncodeSfn(sfn)
  }

  function Decode(b: seq<byte>): (e: DirEntry)
    requires |b| == SIZE
    ensures e.Valid()
  {
    if b[0] == 0xe5 then Unused
    else if b[0] == 0 then UnusedTerminal
    else if b[11] % 0x40 == LONG_FILE_NAME then Lfn(DecodeLfn(b))
    else Sfn(DecodeSfn(b))
  }

  /** What the first byte and the attributes of an entry mean. */
  lemma EntryKind(b: seq<byte>)
    requires |b| == SIZE
    ensures Decode(b).Unused? <==> b[0] == 0xe5
    ensures Decode(b).UnusedTerminal? <==> b[0] == 0
    ensures Decode(b).Lfn? <==> b[0] != 0xe5 && b[0] != 0 && b[11] % 0x40 == 0x0f
    ensures Decode(b).Lfn? || Decode(b).Sfn? ==> Encode(Decode(b)) == if Decode(b).Lfn? then b[26 := 0][27 := 0] else b
    ensures Encode(Unused)[0] == 0xe5 && Encode(UnusedTerminal)[0] == 0
  {
    hide EncodeSfn, EncodeLfn, DecodeSfn, DecodeLfn;
    SfnBytes(b);
    LfnBytes(b);
  }

  /** Reading back a written entry gives it exactly when its first byte and attributes do not mean
      something else and it has no reserved field set. */
  lemma {:induction false} EntryRoundTrip(e: DirEntry)
    requires e.Valid()
    ensures Decode(Encode(e)) == e <==> e.Encodable()
  {
    var b := Encode(e);
    match e
    case Lfn(lfn) =>
      LfnEntryRoundTrip(lfn);
      assert b[0] == lfn.ord && b[11] == lfn.attr;
    case Sfn(sfn) =>
      SfnRoundTrip(sfn);
      assert b[0] == sfn.name[0] && b[11] == sfn.attr;
    case _ =>
  }

  /** What is read from 32 bytes as a short entry can be written again, also with another cluster and
      the archive bit. */
  lemma {:induction false} ReadIsEncodable(b: seq<byte>, e: SfnEntry)
    requires |b| == SIZE && Decode(b) == Sfn(e)
    ensures var e' := e.SetCluster(None).MarkArchive();
            Sfn(e).Encodable() && Sfn(e').Encodable() && Decode(Encode(Sfn(e'))) == Sfn(e')
  {
    hide U16FromLe, U32FromLe, Encode;
    var e' := e.SetCluster(None).MarkArchive();
    MarkArchiveKeeps(e.SetCluster(None));
    ArchiveNotLong(e'.attr);
    EntryRoundTrip(Sfn(e'));
  }

  lemma ArchiveNotLong(x: byte)
    requires HasBit(x, ARCHIVE)
    ensures x % 0x40 != LONG_FILE_NAME
  {
    assert x == x / 0x20 * 0x20 + x % 0x20;
    assert x / 0x20 % 2 == 1;
  }
}
