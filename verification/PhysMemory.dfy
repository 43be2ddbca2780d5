/** The bitmap of physical frames, phys_memory.rs. */
module PhysMemory {
  import opened Bytes

  const FRAME_SIZE: nat := 4096
  const BITS_PER_LINE: nat := 64

  // ---- words ----

  function Pow2(n: nat): (p: nat)
    ensures p > 0
  {
    if n == 0 then 1 else 2 * Pow2(n - 1)
  }

  /** Bit `k` of a word: w & (1 << k) != 0. */
  predicate Bit(w: nat, k: nat) {
    if k == 0 then w % 2 == 1 else Bit(w / 2, k - 1)
  }

  /** w | (1 << k) or w & !(1 << k). */
  function Put(w: nat, k: nat, on: bool): nat {
    if k == 0 then w / 2 * 2 + (if on then 1 else 0) else Put(w / 2, k - 1, on) * 2 + w % 2
  }

  lemma Halves(p: nat, r: nat)
    requires r < 2
    ensures (p * 2 + r) / 2 == p && (p * 2 + r) % 2 == r
  {
  }

  /** Exactly bit `k` is set or cleared. */
  lemma {:induction false} PutBit(w: nat, k: nat, on: bool, j: nat)
    ensures Bit(Put(w, k, on), j) == if j == k then on else Bit(w, j)
    decreases k
  {
    if k == 0 {
      Halves(w / 2, if on then 1 else 0);
    } else {
      Halves(Put(w / 2, k - 1, on), w % 2);
      if j > 0 {
        PutBit(w / 2, k - 1, on, j - 1);
      }
    }
  }

  /** A word stays within its width. */
  lemma {:induction false} PutFits(w: nat, k: nat, on: bool, width: nat)
    requires w < Pow2(width) && k < width
    ensures Put(w, k, on) < Pow2(width)
    decreases k
  {
    if k > 0 {
      PutFits(w / 2, k - 1, on, width - 1);
    }
  }

  type Word = w: nat | w < Pow2(BITS_PER_LINE) witness 0

  /** Whether a frame is allocated, by the packed words. */
  predicate Marked(words: seq<Word>, f: nat) {
    f / BITS_PER_LINE < |words| && Bit(words[f / BITS_PER_LINE], f % BITS_PER_LINE)
  }

  // ---- runs of free frames ----

  /** The `n` frames from `f` on lie before `end` and are free. */
  ghost predicate FreeRun(used: iset<nat>, f: nat, n: nat, end: nat) {
    forall g: nat :: Within(g, f, n) ==> Usable(used, g, end)
  }

  predicate Within(g: nat, f: nat, n: nat) {
    f <= g < f + n
  }

  ghost predicate Usable(used: iset<nat>, g: nat, end: nat) {
    g < end && g !in used
  }

  /** The frames from `f` to before `f + n`. */
  ghost function Range(f: nat, n: nat): iset<nat> {
    iset g: nat | Within(g, f, n)
  }

  /** The least start of `n` free frames in `begin..end`. */
  ghost predicate FirstFit(used: iset<nat>, begin: nat, end: nat, n: nat, f: nat) {
    && begin <= f && FreeRun(used, f, n, end)
    && forall g: nat :: begin <= g < f ==> !FreeRun(used, g, n, end)
  }

  datatype AllocateError = NotEnoughFrame

  /** A region of available memory, in bytes. */
  datatype Descriptor = Descriptor(physStart: nat, physEnd: nat)

  /** A valid memory map: page-aligned regions in order, none overlapping. */
  ghost predicate ValidMap(ds: seq<Descriptor>) {
    && (forall i :: 0 <= i < |ds| ==> ds[i].physStart % FRAME_SIZE == 0 && ds[i].physEnd % FRAME_SIZE == 0 && ds[i].physStart <= ds[i].physEnd)
    && (forall i, j :: 0 <= i < j < |ds| ==> ds[i].physEnd <= ds[j].physStart)
  }

  /** The frame lies in a region. */
  predicate InRegion(d: Descriptor, f: nat) {
    d.physStart <= f * FRAME_SIZE < d.physEnd
  }

  function EndOf(ds: seq<Descriptor>): nat {
    if ds == [] then 0 else ds[|ds| - 1].physEnd
  }

  /** Exactly the frames before the end of the regions that are in none of them. */
  ghost predicate OnlyGaps(used: iset<nat>, ds: seq<Descriptor>) {
    forall f: nat :: f in used <==> f * FRAME_SIZE < EndOf(ds) && !Described(ds, f)
  }

  ghost predicate Described(ds: seq<Descriptor>, f: nat) {
    exists i: nat :: i < |ds| && InRegion(ds[i], f)
  }

  lemma {:induction false} DescribedMore(ds: seq<Descriptor>, i: nat, f: nat)
    requires i < |ds|
    ensures Described(ds[..i + 1], f) <==> Described(ds[..i], f) || InRegion(ds[i], f)
  {
    if Described(ds[..i], f) {
      var k: nat :| k < i && InRegion(ds[..i][k], f);
      assert InRegion(ds[..i + 1][k], f);
    }
    if InRegion(ds[i], f) {
      assert InRegion(ds[..i + 1][i], f);
    }
    if Described(ds[..i + 1], f) {
      var k: nat :| k < i + 1 && InRegion(ds[..i + 1][k], f);
      assert k < i ==> InRegion(ds[..i][k], f);
    }
  }

  lemma {:induction false} DescribedBefore(ds: seq<Descriptor>, i: nat, f: nat)
    requires ValidMap(ds) && i <= |ds| && f * FRAME_SIZE >= EndOf(ds[..i])
    ensures !Described(ds[..i], f)
  {
    forall k: nat | k < i ensures !InRegion(ds[..i][k], f) {
      assert EndOf(ds[..i]) == ds[i - 1].physEnd && ds[i - 1].physStart <= ds[i - 1].physEnd;
      assert k == i - 1 || ds[k].physEnd <= ds[i - 1].physStart;
    }
  }

  lemma {:induction false} GapBefore(used: iset<nat>, ds: seq<Descriptor>, i: nat)
    requires ValidMap(ds) && i < |ds| && OnlyGaps(used, ds[..i])
    ensures EndOf(ds[..i]) <= ds[i].physStart && EndOf(ds[..i]) % FRAME_SIZE == 0
    ensures OnlyGaps(used + Range(EndOf(ds[..i]) / FRAME_SIZE, (ds[i].physStart - EndOf(ds[..i])) / FRAME_SIZE), ds[..i + 1])
  {
    var d, e := ds[i], EndOf(ds[..i]);
    assert i > 0 ==> ds[..i][i - 1] == ds[i - 1];
    var used' := used + Range(e / FRAME_SIZE, (d.physStart - e) / FRAME_SIZE);
    forall f: nat ensures f in used' <==> f * FRAME_SIZE < d.physEnd && !Described(ds[..i + 1], f) {
      DescribedMore(ds, i, f);
      if f * FRAME_SIZE >= e {
        DescribedBefore(ds, i, f);
      }
      assert f in Range(e / FRAME_SIZE, (d.physStart - e) / FRAME_SIZE) <==> e <= f * FRAME_SIZE < d.physStart;
    }
  }

  class BitmapFrameManager {
    const allocMap: array<Word>
    var begin: nat
    var end: nat

    /** The range is within the map. */
    ghost predicate Valid()
      reads this
    {
      end <= allocMap.Length * BITS_PER_LINE
    }

    /** The frames marked as allocated. */
    ghost function Allocated(): iset<nat>
      reads allocMap
    {
      iset f: nat | Marked(allocMap[..], f)
    }

    constructor (lines: nat)
      requires lines > 0
      ensures Valid() && fresh(allocMap) && allocMap.Length == lines && Allocated() == iset{}
      ensures begin == 1 && end == lines * BITS_PER_LINE
    {
      allocMap := new Word[lines](_ => 0);
      begin, end := 1, lines * BITS_PER_LINE;
      new;
      forall f: nat ensures !Marked(allocMap[..], f) {
        ZeroBit(f % BITS_PER_LINE);
      }
    }

    lemma InMap(f: nat)
      requires f in Allocated()
      ensures f < allocMap.Length * BITS_PER_LINE
    {
    }

    method GetBit(f: nat) returns (b: bool)
      requires f < allocMap.Length * BITS_PER_LINE
      ensures b == (f in Allocated())
    {
      b := Bit(allocMap[f / BITS_PER_LINE], f % BITS_PER_LINE);
    }

    method SetBit(f: nat, on: bool)
      requires f < allocMap.Length * BITS_PER_LINE
      modifies allocMap
      ensures Allocated() == if on then old(Allocated()) + iset{f} else old(Allocated()) - iset{f}
    {
      hide Put, Bit;
      var l, b := f / BITS_PER_LINE, f % BITS_PER_LINE;
      ghost var was := allocMap[..];
      PutFits(allocMap[l], b, on, BITS_PER_LINE);
      allocMap[l] := Put(allocMap[l], b, on);
      forall g: nat ensures Marked(allocMap[..], g) == if g == f then on else Marked(was, g) {
        SameSlot(f, g);
        PutBit(was[l], b, on, g % BITS_PER_LINE);
      }
    }

    /** mark_allocated and free. */
    method Mark(f: nat, n: nat, on: bool)
      requires n > 0 ==> f + n <= allocMap.Length * BITS_PER_LINE
      modifies allocMap
      ensures Allocated() == if on then old(Allocated()) + Range(f, n) else old(Allocated()) - Range(f, n)
    {
      hide Allocated;
      for i := 0 to n
        invariant Allocated() == if on then old(Allocated()) + Range(f, i) else old(Allocated()) - Range(f, i)
      {
        SetBit(f + i, on);
      }
    }

    /** The number of free frames in range from `f` on, up to `n`. */
    method Probe(f: nat, n: nat) returns (k: nat)
      requires Valid()
      ensures k <= n && FreeRun(Allocated(), f, k, end)
      ensures k < n ==> f + k >= end || f + k in Allocated()
    {
      hide Allocated;
      for i := 0 to n
        invariant FreeRun(Allocated(), f, i, end)
      {
        if f + i >= end {
          return i;
        }
        var b := GetBit(f + i);
        if b {
          return i;
        }
      }
      return n;
    }

    /** First fit: the least start of `n` free frames, and an error exactly when there is none. */
    method Allocate(n: nat) returns (r: Result<nat, AllocateError>)
      requires Valid()
      modifies allocMap
      ensures match r
              case Ok(f) =>
                && FirstFit(old(Allocated()), begin, end, n, f)
                && Allocated() == old(Allocated()) + Range(f, n)
              case Err(_) =>
                && (forall g: nat :: begin <= g ==> !FreeRun(old(Allocated()), g, n, end))
                && Allocated() == old(Allocated())
    {
      hide Allocated;
      var f := begin;
      while true
        invariant begin <= f && Allocated() == old(Allocated())
        invariant forall g: nat :: begin <= g < f ==> !FreeRun(old(Allocated()), g, n, end)
        decreases end - f
      {
        var k := Probe(f, n);
        if k == n {
          assert n > 0 ==> Within(f + (n - 1), f, n);
          Mark(f, n, true);
          return Ok(f);
        }
        NoRunOver(old(Allocated()), f, k, n, end);
        if f + k >= end {
          return Err(NotEnoughFrame);
        }
        f := f + k + 1;
      }
    }

    /** initialize: afterwards exactly the described frames are free that were not marked before. */
    method Initialize(ds: seq<Descriptor>)
      requires ValidMap(ds) && EndOf(ds) / FRAME_SIZE <= allocMap.Length * BITS_PER_LINE
      modifies this, allocMap
      ensures Valid() && begin == 1 && end * FRAME_SIZE == EndOf(ds)
      ensures forall f: nat :: begin <= f < end ==> (f !in Allocated() <==> Described(ds, f) && f !in old(Allocated()))
    {
      hide Allocated;
      var availableEnd := 0;
      ghost var gaps: iset<nat> := iset{};
      for i := 0 to |ds|
        invariant availableEnd == EndOf(ds[..i])
        invariant Allocated() == old(Allocated()) + gaps && OnlyGaps(gaps, ds[..i])
      {
        var d := ds[i];
        GapBefore(gaps, ds, i);
        EndGrows(ds, i);
        if availableEnd < d.physStart {
          Mark(availableEnd / FRAME_SIZE, (d.physStart - availableEnd) / FRAME_SIZE, true);
        } else {
          assert Allocated() + Range(availableEnd / FRAME_SIZE, 0) == Allocated();
        }
        gaps := gaps + Range(availableEnd / FRAME_SIZE, (d.physStart - availableEnd) / FRAME_SIZE);
        availableEnd := d.physEnd;
      }
      assert ds[..|ds|] == ds;
      EndAligned(ds);
      begin, end := 1, availableEnd / FRAME_SIZE;
    }
  }

  lemma {:induction false} EndGrows(ds: seq<Descriptor>, i: nat)
    requires ValidMap(ds) && i < |ds|
    ensures ds[i].physEnd <= EndOf(ds) && EndOf(ds[..i + 1]) == ds[i].physEnd && ds[i].physStart <= ds[i].physEnd
  {
  }

  lemma {:induction false} EndAligned(ds: seq<Descriptor>)
    requires ValidMap(ds)
    ensures EndOf(ds) / FRAME_SIZE * FRAME_SIZE == EndOf(ds)
  {
  }

  /** A search that was stopped after `k` frames can go on behind them. */
  lemma {:induction false} NoRunOver(used: iset<nat>, f: nat, k: nat, n: nat, end: nat)
    requires k < n && (f + k >= end || f + k in used)
    ensures forall g: nat :: f <= g <= f + k ==> !FreeRun(used, g, n, end)
    ensures f + k >= end ==> forall g: nat :: f <= g ==> !FreeRun(used, g, n, end)
  {
    forall g: nat | FreeRun(used, g, n, end) && f <= g ensures g > f + k && f + k < end {
      assert g <= f + k ==> Within(f + k, g, n);
      assert Within(g, g, n);
    }
  }

  lemma {:induction false} ZeroBit(k: nat)
    ensures !Bit(0, k)
  {
    if k > 0 {
      ZeroBit(k - 1);
    }
  }

  lemma SameSlot(f: nat, g: nat)
    ensures f == g <==> f / BITS_PER_LINE == g / BITS_PER_LINE && f % BITS_PER_LINE == g % BITS_PER_LINE
  {
  }
}
