/** Which names directory entries can hold and how they hold them, fs/fat/dir_entry.rs. */
module NameFormats {
  import opened Bytes
  import opened DirEntries
  import opened LongNames

  // ---- names that are accepted ----

  const FORBIDDEN := "\\/:*?\"<>|"

  predicate Forbidden(c: u16) {
    exists i :: 0 <= i < |FORBIDDEN| && FORBIDDEN[i] as int == c
  }

  lemma ForbiddenExact(c: u16)
    ensures Forbidden(c) <==> !IsLfnChar(c)
  {
    assert |FORBIDDEN| == 9;
    assert FORBIDDEN[0] as int == 0x5c && FORBIDDEN[1] as int == 0x2f && FORBIDDEN[2] as int == 0x3a;
    assert FORBIDDEN[3] as int == 0x2a && FORBIDDEN[4] as int == 0x3f && FORBIDDEN[5] as int == 0x22;
    assert FORBIDDEN[6] as int == 0x3c && FORBIDDEN[7] as int == 0x3e && FORBIDDEN[8] as int == 0x7c;
  }

  /** A short name is its base, or its base, a dot and its extension. */
  lemma {:induction false} ShortParts(name: Name)
    ensures name == Base(name) + (if FindDot(name) < |name| then [DOT] + Ext(name) else [])
  {
  }

  lemma {:induction false} ShortChar(name: Name, i: nat)
    requires IsShortName(name) && i < |name|
    ensures |name| <= 12 && (name[i] == DOT || IsSfnChar(name[i]))
  {
    ShortParts(name);
    var k := FindDot(name);
    if i < k {
      assert Base(name)[i] == name[i];
    } else if i > k {
      assert Ext(name)[i - k - 1] == name[i];
    }
  }

  /** A name is accepted exactly when it has at most 255 code units, none of them a separator or wildcard. */
  lemma {:induction false} AcceptedExact(name: Name, sfn: SfnEntry)
    ensures LfnSequence(name, sfn).Some? <==> |name| <= 255 && forall i :: 0 <= i < |name| ==> !Forbidden(name[i])
  {
    hide Forbidden, SetName, Parts, Padded, GenerateName, Sum;
    forall i | 0 <= i < |name| ensures Forbidden(name[i]) <==> !IsLfnChar(name[i]) {
      ForbiddenExact(name[i]);
    }
    if IsShortName(name) {
      forall i | 0 <= i < |name| ensures IsLfnChar(name[i]) {
        ShortChar(name, i);
      }
      if name != [] {
        ShortChar(name, 0);
      }
    }
  }

  // ---- names that are stored short ----

  /** A short entry of upper case letters, digits and signs, padded with spaces; it has a base. */
  predicate Clean(e: SfnEntry) {
    && e.Valid() && e.name[0] != SPACE
    && forall i :: 0 <= i < 11 ==> e.name[i] == SPACE || (IsSfnChar(e.name[i]) && !IsLower(e.name[i]))
  }

  lemma {:induction false} ShownFits(b: seq<byte>, lower: bool)
    requires forall i :: 0 <= i < |b| ==> b[i] == SPACE || (IsSfnChar(b[i]) && !IsLower(b[i]))
    ensures FitsField(Shown(b, lower), if b != [] && b[0] != SPACE then 1 else 0, |b|)
    ensures if lower then !HasUpper(Shown(b, lower)) else !HasLower(Shown(b, lower))
  {
    if b != [] && b[0] != SPACE {
      ShownFits(b[1..], lower);
    }
  }

  lemma {:induction false} DotFree(n: Name, rest: Name)
    requires AllSfn(n) && (rest == [] || rest[0] == DOT)
    ensures FindDot(n + rest) == |n|
  {
    if n == [] {
      assert n + rest == rest;
    } else {
      assert (n + rest)[1..] == n[1..] + rest;
      DotFree(n[1..], rest);
    }
  }

  /** A name is stored in a single short entry exactly when some short entry shows it. */
  lemma {:induction false} ShortExact(name: Name)
    ensures IsShortName(name) <==> exists e :: Clean(e) && ShortName(e) == name
  {
    if IsShortName(name) {
      var e := SetName(SfnEntry(seq(11, _ => SPACE), 0, 0, 0, 0, 0, 0, 0, 0, 0, 0, 0), name);
      SetNameRoundTrip(SfnEntry(seq(11, _ => SPACE), 0, 0, 0, 0, 0, 0, 0, 0, 0, 0, 0), name);
      SetNameClean(SfnEntry(seq(11, _ => SPACE), 0, 0, 0, 0, 0, 0, 0, 0, 0, 0, 0), name);
    }
    forall e | Clean(e) && ShortName(e) == name ensures IsShortName(name) {
      CleanShown(e);
    }
  }

  lemma {:induction false} SetNameClean(e: SfnEntry, name: Name)
    requires IsShortName(name)
    ensures Clean(SetName(e, name))
  {
    hide WithBit;
    var base, ext, b := Base(name), Ext(name), SetName(e, name).name;
    forall i | 0 <= i < 11 ensures b[i] == SPACE || (IsSfnChar(b[i]) && !IsLower(b[i])) {
      assert b[i] == if i < 8 then Field(base, 8)[i] else Field(ext, 3)[i - 8];
    }
  }

  lemma {:induction false} CleanShown(e: SfnEntry)
    requires Clean(e)
    ensures IsShortName(ShortName(e))
  {
    hide HasBit, Shown;
    var base, ext := Shown(e.name[..8], HasBit(e.ntRes, BASE_LOWER)), Shown(e.name[8..], HasBit(e.ntRes, EXT_LOWER));
    ShownFits(e.name[..8], HasBit(e.ntRes, BASE_LOWER));
    ShownFits(e.name[8..], HasBit(e.ntRes, EXT_LOWER));
    hide FitsField;
    var rest := (if e.name[8] != SPACE then [DOT] else []) + ext;
    var name := ShortName(e);
    assert name == base + rest;
    SpaceShowsNothing(e.name[8..], HasBit(e.ntRes, EXT_LOWER));
    FitsAll(base, 1, 8);
    DotFree(base, rest);
    assert Base(name) == base;
    assert e.name[8] != SPACE ==> rest == [DOT] + ext && Ext(name) == ext;
  }

  lemma FitsAll(n: Name, least: nat, width: nat)
    requires FitsField(n, least, width)
    ensures AllSfn(n)
  {
  }

  lemma SpaceShowsNothing(b: seq<byte>, lower: bool)
    requires b != []
    ensures b[0] == SPACE ==> Shown(b, lower) == []
  {
  }

  /** How a short name is stored: in upper case, padded with spaces to 8 and 3 bytes, with bit 3 set for a base and bit
      4 for an extension in lower case. */
  lemma {:induction false} SetNameBytes(e: SfnEntry, name: Name, i: nat)
    requires IsShortName(name) && i < 11
    ensures var r := SetName(e, name);
            && r == e.(name := r.name, ntRes := r.ntRes)
            && (if i < 8 then r.name[i] == (if i < |Base(name)| then ToUpper(Base(name)[i]) else 0x20)
                else r.name[i] == if i - 8 < |Ext(name)| then ToUpper(Ext(name)[i - 8]) else 0x20)
            && (r.ntRes / 8 % 2 == 1 <==> exists k :: 0 <= k < |Base(name)| && 0x61 <= Base(name)[k] <= 0x7a)
            && (r.ntRes / 16 % 2 == 1 <==> exists k :: 0 <= k < |Ext(name)| && 0x61 <= Ext(name)[k] <= 0x7a)
  {
    hide WithBit;
    var r := SetName(e, name);
    KeepsBit(WithBit(e.ntRes, BASE_LOWER, HasLower(Base(name))), HasLower(Ext(name)));
    assert HasBit(r.ntRes, 0x08) <==> HasLower(Base(name));
    assert HasBit(r.ntRes, 0x10) <==> HasLower(Ext(name));
  }

  /** How a short name is shown: up to the first space, upper case letters in lower case if so marked, and U+FFFD for
      whatever is not a visible ASCII character. */
  lemma {:induction false} ShownAt(b: seq<byte>, lower: bool, i: nat)
    requires i < |b| && forall k :: 0 <= k <= i ==> b[k] != 0x20
    ensures i < |Shown(b, lower)|
    ensures Shown(b, lower)[i] == if lower && 0x41 <= b[i] <= 0x5a then b[i] + 0x20 else if 0x21 <= b[i] <= 0x7e then b[i] else 0xfffd
    ensures i + 1 < |b| && b[i + 1] == 0x20 ==> |Shown(b, lower)| == i + 1
  {
    if i > 0 {
      ShownAt(b[1..], lower, i - 1);
    } else if |b| > 1 {
      assert b[1..][0] == b[1];
    }
  }

  // ---- short entries of long names ----

  /** How many characters of `n` can be in a short name. */
  function Count(n: Name): (k: nat)
    ensures k <= |n|
  {
    if n == [] then 0 else Count(n[..|n| - 1]) + if IsSfnChar(n[|n| - 1]) then 1 else 0
  }

  lemma {:induction false} CountTail(n: Name, i: nat)
    requires 1 <= i <= |n|
    ensures Count(n[..i]) == Count(n[1..][..i - 1]) + if IsSfnChar(n[0]) then 1 else 0
    decreases i
  {
    if i > 1 {
      CountTail(n, i - 1);
      assert n[..i][..i - 1] == n[..i - 1] && n[1..][..i - 1][..i - 2] == n[1..][..i - 2];
      assert n[..i][i - 1] == n[1..][..i - 1][i - 2];
    } else {
      assert n[..1][..0] == [] && n[1..][..0] == [];
      assert Count(n[..1][..0]) == 0;
    }
  }

  /** The short form of a long name keeps the characters that it can, in order and in upper case. */
  lemma {:induction false} ShortCharsAt(name: Name, i: nat)
    requires i < |name| && IsSfnChar(name[i])
    ensures Count(name[..i]) < |ShortChars(name)| && ShortChars(name)[Count(name[..i])] == ToUpper(name[i])
  {
    if i > 0 {
      ShortCharsAt(name[1..], i - 1);
      CountTail(name, i);
    }
  }

  lemma {:induction false} ShortCharsCount(name: Name)
    ensures |ShortChars(name)| == Count(name)
  {
    if name != [] {
      ShortCharsCount(name[1..]);
      CountTail(name, |name|);
      assert name[..|name|] == name && name[1..][..|name| - 1] == name[1..];
    }
  }

  /** Byte `k` of the short entry of a long name is its `k`-th character that a short name can have, in upper case, or a
      space behind the last one. */
  lemma {:induction false} GeneratedExact(name: Name, k: nat)
    requires k < 11
    ensures Count(name) <= k ==> GenerateName(name)[k] == 0x20
    ensures forall i: nat :: i < |name| && IsSfnChar(name[i]) && Count(name[..i]) == k ==> GenerateName(name)[k] == ToUpper(name[i])
  {
    ShortCharsCount(name);
    forall i: nat | i < |name| && IsSfnChar(name[i]) && Count(name[..i]) == k ensures GenerateName(name)[k] == ToUpper(name[i]) {
      ShortCharsAt(name, i);
    }
  }

  // ---- long names on the disk ----

  lemma {:induction false} PartAt(buf: Name, order: nat, chksum: byte, i: nat)
    requires order * 13 <= |buf| && order <= 20 && i < order
    ensures |Parts(buf, order, chksum)| == order
    ensures Parts(buf, order, chksum)[i]
         == Lfn(LfnOf(order - i, (order - i) * 13 == |buf|, chksum, buf[(order - i - 1) * 13..(order - i) * 13]))
  {
    hide LfnOf;
    PartsValid(buf, order, chksum);
    if i > 0 {
      PartAt(buf, order - 1, chksum, i - 1);
    }
  }

  /** The bytes of part `i` of a long name in `num` parts: its number counts down to 1, the first one on the disk is
      marked, and code unit `k` of it is one of the name, of the zero behind it, or of the padding. */
  lemma {:induction false} PartBytes(name: Name, chksum: byte, i: nat, k: nat)
    requires |name| <= 255 && k < 13 && i < |Padded(name)| / 13
    ensures |Parts(Padded(name), |Padded(name)| / 13, chksum)| == |Padded(name)| / 13
    ensures var num := |Padded(name)| / 13;
            var e := Parts(Padded(name), num, chksum)[i];
            var at := (num - 1 - i) * 13 + k;
            && e.Lfn? && e.Valid()
            && var b := Encode(e);
               && b[0] == num - i + (if i == 0 then 0x40 else 0)
               && b[11] == 0x0f && b[12] == 0 && b[13] == chksum && b[26] == 0 && b[27] == 0
               && b[UnitAt(k)] as nat + 0x100 * b[UnitAt(k) + 1] as nat
                  == if at < |name| then name[at] else if at == |name| then 0x0000 else 0xffff
  {
    hide Padded, LfnOf, LfnEntry.Units, EncodeLfn, ToLe, FromLe, UnitAt;
    var buf := Padded(name);
    var num := |buf| / 13;
    assert |buf| == num * 13 && num <= 20;
    PartAt(buf, num, chksum, i);
    var order := num - i;
    var units := buf[(order - 1) * 13..order * 13];
    PartFields(order, i == 0, chksum, units);
    var e := LfnOf(order, i == 0, chksum, units);
    LfnLayout(e, k);
    assert e.Units()[k] == units[k] == buf[(order - 1) * 13 + k];
  }

  lemma {:induction false} PartFields(order: nat, last: bool, chksum: byte, units: Name)
    requires 1 <= order <= 20 && |units| == 13
    ensures var e := LfnOf(order, last, chksum, units);
            && e.Valid() && e.Units() == units && e.chksum == chksum
            && e.ord == order + (if last then 0x40 else 0) && e.attr == 0x0f && e.ty == 0
  {
    hide LfnEntry.Units, ToLe, FromLe;
    LfnOfReads(order, last, chksum, units);
  }
}
