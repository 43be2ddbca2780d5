/** FAT entries and their 32-bit form, fs/fat/fat_entry.rs. */
module FatEntries {
  import opened Bytes

  datatype FatEntry = Unused | Reserved | UsedChained(cluster: nat) | UsedEoc | Bad {

    function Chain(): Option<nat> {
      match this
      case UsedChained(c) => Some(c)
      case _ => None
    }

    /** Has a 32-bit form that reads back as itself. */
    predicate Encodable() {
      UsedChained? ==> 2 <= cluster <= 0x0fff_fff6
    }
  }

  /** The upper four bits are ignored. */
  function Decode(value: u32): (e: FatEntry)
    ensures e.Encodable()
  {
    var n := value % 0x1000_0000;
    if n == 0 then Unused
    else if n == 1 then Reserved
    else if n <= 0x0fff_fff6 then UsedChained(n)
    else if n == 0x0fff_fff7 then Bad
    else UsedEoc
  }

  /** Cluster numbers are cut to 32 bits. */
  function Encode(e: FatEntry): u32 {
    match e
    case Unused => 0
    case Reserved => 1
    case UsedChained(c) => c % 0x1_0000_0000
    case UsedEoc => 0x0fff_ffff
    case Bad => 0x0fff_fff7
  }

  /** Writing an entry and reading it back gives the same entry exactly when its cluster number has a
      chained form. */
  lemma EncodeRoundTrip(e: FatEntry)
    ensures Decode(Encode(e)) == e <==> e.Encodable()
  {
    assert Decode(Encode(e)).Encodable();
  }

  // ---- what the four bytes of a slot mean ----

  /** The low 28 bits of a slot, the lowest byte first. */
  function Low28(b: seq<byte>): nat
    requires |b| == 4
  {
    b[0] as nat + 0x100 * b[1] as nat + 0x1_0000 * b[2] as nat + 0x100_0000 * (b[3] as nat % 0x10)
  }

  /** The entry that a slot stands for. */
  predicate Means(b: seq<byte>, e: FatEntry)
    requires |b| == 4
  {
    match e
    case Unused => Low28(b) == 0
    case Reserved => Low28(b) == 1
    case UsedChained(c) => Low28(b) == c && 2 <= c <= 0x0fff_fff6
    case Bad => Low28(b) == 0x0fff_fff7
    case UsedEoc => Low28(b) >= 0x0fff_fff8
  }

  lemma LowBits(b: seq<byte>)
    requires |b| == 4
    ensures U32FromLe(b) % 0x1000_0000 == Low28(b)
  {
    var hi := b[3] as nat / 0x10;
    assert U32FromLe(b) == 0x1000_0000 * hi + Low28(b);
  }

  /** A slot reads as the entry that it stands for, and as no other. */
  lemma DecodeMeans(b: seq<byte>, e: FatEntry)
    requires |b| == 4
    ensures Decode(U32FromLe(b)) == e <==> Means(b, e)
  {
    hide U32FromLe, Low28;
    LowBits(b);
  }

  /** A written slot stands for the entry, and has its upper four bits clear; an unused one is all zero. */
  lemma EncodeMeans(e: FatEntry)
    requires e.Encodable()
    ensures Means(U32ToLe(Encode(e)), e) && U32ToLe(Encode(e))[3] < 0x10
    ensures e.Unused? ==> U32ToLe(Encode(e)) == [0, 0, 0, 0]
    ensures e.UsedEoc? ==> U32ToLe(Encode(e)) == [0xff, 0xff, 0xff, 0x0f]
  {
    var b := U32ToLe(Encode(e));
    EncodeRoundTrip(e);
    DecodeMeans(b, e);
    assert U32FromLe(b) == Encode(e) < 0x1000_0000;
    assert 0x100_0000 * b[3] as nat <= U32FromLe(b);
  }
}
