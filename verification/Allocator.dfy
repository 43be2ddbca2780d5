/** The kernel allocator: size classes with intrusive free lists over frames, allocator.rs. */
module Allocators {
  import opened Bytes
  import opened PhysMemory
  import opened Remainders

  const BLOCK_SIZES: seq<nat> := [8, 16, 32, 64, 128, 256, 512, 1024, 2048]
  const CLASSES: nat := 9

  type Class = i: nat | i < CLASSES witness 0

  /** An allocation is one block of a class, or whole frames. */
  datatype Mode = Block(index: Class) | Frames(num: nat) {
    function Bytes(): nat {
      match this case Block(i) => BLOCK_SIZES[i] case Frames(n) => n * FRAME_SIZE
    }
  }

  function Needed(size: nat, align: nat): nat {
    if size >= align then size else align
  }

  function ClassFrom(size: nat, i: nat): (r: Option<Class>)
    requires i <= CLASSES
    ensures r.Some? ==> i <= r.value && size <= BLOCK_SIZES[r.value] && forall k :: i <= k < r.value ==> BLOCK_SIZES[k] < size
    ensures r.None? ==> forall k :: i <= k < CLASSES ==> BLOCK_SIZES[k] < size
    decreases CLASSES - i
  {
    if i == CLASSES then None else if size <= BLOCK_SIZES[i] then Some(i) else ClassFrom(size, i + 1)
  }

  /** From a layout to a mode: the first class that is large enough, else frames. */
  function ModeOf(size: nat, align: nat): Mode {
    match ClassFrom(Needed(size, align), 0)
    case Some(i) => Block(i)
    case None => Frames((Needed(size, align) + FRAME_SIZE - 1) / FRAME_SIZE)
  }

  /** Alignments are powers of two. */
  ghost predicate IsPowerOfTwo(x: nat) {
    exists k: nat :: x == Pow2(k)
  }

  /** A mode has room for the size, and its multiples are aligned, as far as frames are. No smaller class and no
      smaller number of frames would do. */
  lemma {:induction false} ModeFits(size: nat, align: nat)
    requires IsPowerOfTwo(align)
    ensures size <= ModeOf(size, align).Bytes() && ModeOf(size, align).Bytes() > 0
    ensures ModeOf(size, align).Frames? ==> ModeOf(size, align).num > 0
    ensures ModeOf(size, align).Block? ==> BLOCK_SIZES[ModeOf(size, align).index] % align == 0
    ensures ModeOf(size, align).Frames? && align <= FRAME_SIZE ==> FRAME_SIZE % align == 0
    ensures ModeOf(size, align).Block? <==> size <= 2048 && align <= 2048
    ensures match ModeOf(size, align)
            case Block(i) => align <= BLOCK_SIZES[i] && forall k: Class :: k < i ==> BLOCK_SIZES[k] < size || BLOCK_SIZES[k] < align
            case Frames(n) => align <= n * FRAME_SIZE && (forall k: Class :: BLOCK_SIZES[k] < size || BLOCK_SIZES[k] < align)
                              && ((n - 1) * FRAME_SIZE < size || (n - 1) * FRAME_SIZE < align)
  {
    var k: nat :| align == Pow2(k);
    match ModeOf(size, align)
    case Block(i) =>
      BlockPower(i);
      PowerDivides(k, i + 3);
    case Frames(n) =>
      FramePower();
      if align <= FRAME_SIZE {
        PowerDivides(k, 12);
      }
  }

  lemma FramePower()
    ensures Pow2(12) == FRAME_SIZE
  {
    assert Pow2(4) == 16;
    assert Pow2(8) == 256;
  }

  lemma BlockPower(i: Class)
    ensures Pow2(i + 3) == BLOCK_SIZES[i]
  {
    assert Pow2(3) == 8;
    if i > 0 {
      BlockPower(i - 1);
    }
  }

  lemma {:induction false} PowerDivides(k: nat, j: nat)
    requires Pow2(k) <= Pow2(j)
    ensures Pow2(j) % Pow2(k) == 0
    decreases j
  {
    if k >= j {
      PowerGrows(j, k);
      RemainderOf(Pow2(j), 1, 0, Pow2(k));
    } else {
      PowerGrows(k, j - 1);
      PowerDivides(k, j - 1);
      DoubleDivides(Pow2(j - 1), Pow2(k));
    }
  }

  lemma {:induction false} DoubleDivides(a: nat, d: nat)
    requires d > 0 && a % d == 0
    ensures (2 * a) % d == 0
  {
    var q := a / d;
    assert a == q * d;
    assert 2 * (q * d) == (2 * q) * d;
    RemainderOf(2 * a, 2 * q, 0, d);
  }

  lemma {:induction false} PowerGrows(j: nat, k: nat)
    requires j <= k
    ensures Pow2(j) <= Pow2(k)
    decreases k
  {
    if j < k {
      PowerGrows(j, k - 1);
    }
  }

  /** Above the frame size alignment is up to the frame number. */
  lemma {:induction false} FrameAlignment(f: nat, align: nat)
    requires IsPowerOfTwo(align) && align > FRAME_SIZE
    ensures align / FRAME_SIZE > 0
    ensures (f * FRAME_SIZE) % align == 0 <==> f % (align / FRAME_SIZE) == 0
  {
    var k: nat :| align == Pow2(k);
    FramePower();
    PowerDivides(12, k);
    var m := align / FRAME_SIZE;
    assert align == m * FRAME_SIZE;
    var q, r := f / m, f % m;
    assert f == q * m + r;
    assert (q * m + r) * FRAME_SIZE == q * (m * FRAME_SIZE) + r * FRAME_SIZE;
    RemainderOf(f * FRAME_SIZE, q, r * FRAME_SIZE, align);
  }

  // ---- who owns which frame ----

  datatype Owner = Blocks(index: Class) | Whole(start: nat, num: nat)

  type Owners = map<nat, Owner>

  /** `a` is a block of class `i` in a frame of that class. */
  predicate IsBlock(owners: Owners, a: nat, i: Class) {
    a / FRAME_SIZE in owners && owners[a / FRAME_SIZE] == Blocks(i) && a % BLOCK_SIZES[i] == 0
  }

  lemma SizeDivides(i: Class)
    ensures 8 <= BLOCK_SIZES[i] <= FRAME_SIZE && FRAME_SIZE % BLOCK_SIZES[i] == 0
  {
  }

  /** A block lies in one frame. */
  lemma {:induction false} BlockInFrame(a: nat, i: Class)
    requires a % BLOCK_SIZES[i] == 0
    ensures (a + BLOCK_SIZES[i] - 1) / FRAME_SIZE == a / FRAME_SIZE
    ensures a % FRAME_SIZE + BLOCK_SIZES[i] <= FRAME_SIZE
  {
    SizeDivides(i);
    var f, r := a / FRAME_SIZE, a % FRAME_SIZE;
    OffsetDivides(f, r, BLOCK_SIZES[i]);
    CloseRemainders(r, FRAME_SIZE, BLOCK_SIZES[i]);
  }

  lemma {:induction false} OffsetDivides(f: nat, r: nat, s: nat)
    requires s > 0 && FRAME_SIZE % s == 0
    ensures (f * FRAME_SIZE + r) % s == r % s
  {
    var q := FRAME_SIZE / s;
    assert FRAME_SIZE == q * s;
    assert f * (q * s) == (f * q) * s;
    SameRemainder(r, f * q, s);
  }

  // ---- the heap ----

  /** Words of memory, by address. */
  type Memory = nat -> nat

  type Lists = l: seq<seq<nat>> | |l| == CLASSES witness seq(CLASSES, _ => [])

  ghost predicate LinkAt(mem: Memory, list: seq<nat>, k: nat)
    requires k < |list|
  {
    mem(list[k]) == if k + 1 < |list| then list[k + 1] else 0
  }

  /** A free list: each block holds the address of the next one, and the last one holds null. */
  ghost predicate Linked(mem: Memory, head: nat, list: seq<nat>) {
    && head == (if list == [] then 0 else list[0])
    && forall k: nat :: k < |list| ==> LinkAt(mem, list, k)
  }

  ghost predicate Distinct(list: seq<nat>) {
    forall i, j :: 0 <= i < j < |list| ==> list[i] != list[j]
  }

  ghost predicate ListOk(mem: Memory, head: nat, list: seq<nat>, owners: Owners, i: Class) {
    && Linked(mem, head, list)
    && Distinct(list)
    && forall a :: a in list ==> IsBlock(owners, a, i)
  }

  /** A live allocation has its frames, and is in no free list. */
  ghost predicate LiveOk(a: nat, mode: Mode, owners: Owners, lists: Lists) {
    match mode
    case Block(i) => IsBlock(owners, a, i) && a !in lists[i]
    case Frames(n) => n > 0 && a % FRAME_SIZE == 0 && forall f: nat :: Within(f, a / FRAME_SIZE, n) ==> f in owners && owners[f] == Whole(a / FRAME_SIZE, n)
  }

  /** Our frames are allocated ones. */
  ghost predicate OwnersOk(owners: Owners, used: iset<nat>) {
    forall f: nat :: f in owners ==> f in used && f > 0
  }

  datatype Heap = Heap(heads: seq<nat>, lists: Lists, live: map<nat, Mode>, owners: Owners)

  ghost predicate HeapOk(mem: Memory, h: Heap, used: iset<nat>) {
    && |h.heads| == CLASSES
    && (forall i: Class :: ListOk(mem, h.heads[i], h.lists[i], h.owners, i))
    && (forall a: nat :: a in h.live ==> LiveOk(a, h.live[a], h.owners, h.lists))
    && OwnersOk(h.owners, used)
  }

  /** Every block of our frames is free or live. */
  ghost predicate NothingLost(h: Heap) {
    forall a: nat, i: Class :: IsBlock(h.owners, a, i) ==> a in h.lists[i] || (a in h.live && h.live[a] == Block(i))
  }

  predicate InExtent(x: nat, a: nat, mode: Mode) {
    a <= x < a + mode.Bytes()
  }

  /** The block of class `i` that byte `x` belongs to. */
  lemma {:induction false} ByteOfBlock(a: nat, i: Class, x: nat)
    requires a % BLOCK_SIZES[i] == 0 && InExtent(x, a, Block(i))
    ensures x / FRAME_SIZE == a / FRAME_SIZE && x - x % BLOCK_SIZES[i] == a
  {
    SizeDivides(i);
    BlockInFrame(a, i);
    RemainderOf(x, a / BLOCK_SIZES[i], x - a, BLOCK_SIZES[i]);
  }

  lemma {:induction false} ByteOfFrames(a: nat, n: nat, x: nat)
    requires a % FRAME_SIZE == 0 && InExtent(x, a, Frames(n))
    ensures Within(x / FRAME_SIZE, a / FRAME_SIZE, n)
  {
  }

  /** The frame of a byte of a live allocation tells the allocation. */
  lemma {:induction false} ByteOf(h: Heap, a: nat, x: nat)
    requires a in h.live && LiveOk(a, h.live[a], h.owners, h.lists) && InExtent(x, a, h.live[a])
    ensures x / FRAME_SIZE in h.owners
    ensures match h.owners[x / FRAME_SIZE]
            case Blocks(i) => h.live[a] == Block(i) && x - x % BLOCK_SIZES[i] == a
            case Whole(f, n) => h.live[a] == Frames(n) && a == f * FRAME_SIZE
  {
    match h.live[a]
    case Block(i) => ByteOfBlock(a, i, x);
    case Frames(n) => ByteOfFrames(a, n, x);
  }

  /** No byte belongs to two live allocations. */
  lemma {:induction false} LiveDisjoint(mem: Memory, h: Heap, used: iset<nat>, a: nat, b: nat, x: nat)
    requires HeapOk(mem, h, used) && a in h.live && b in h.live
    requires InExtent(x, a, h.live[a]) && InExtent(x, b, h.live[b])
    ensures a == b
  {
    hide LiveOk, ListOk;
    ByteOf(h, a, x);
    ByteOf(h, b, x);
  }

  /** No byte of a free block belongs to a live allocation. */
  lemma {:induction false} FreeNotLive(mem: Memory, h: Heap, used: iset<nat>, a: nat, b: nat, i: Class, x: nat)
    requires HeapOk(mem, h, used) && a in h.live && b in h.lists[i]
    requires InExtent(x, b, Block(i))
    ensures !InExtent(x, a, h.live[a])
  {
    assert ListOk(mem, h.heads[i], h.lists[i], h.owners, i);
    ByteOfBlock(b, i, x);
    if InExtent(x, a, h.live[a]) {
      ByteOf(h, a, x);
    }
  }

  // ---- what the operations keep ----

  lemma {:induction false} LinkedElsewhere(mem: Memory, mem': Memory, head: nat, list: seq<nat>)
    requires Linked(mem, head, list) && forall a :: a in list ==> mem'(a) == mem(a)
    ensures Linked(mem', head, list)
  {
    forall k: nat | k < |list| ensures LinkAt(mem', list, k) {
      assert LinkAt(mem, list, k) && list[k] in list;
    }
  }

  /** Only words outside the free lists have changed. */
  lemma {:induction false} HeapElsewhere(mem: Memory, mem': Memory, h: Heap, used: iset<nat>)
    requires HeapOk(mem, h, used) && forall i: Class, a :: a in h.lists[i] ==> mem'(a) == mem(a)
    ensures HeapOk(mem', h, used)
  {
    hide LiveOk, Linked, Distinct, IsBlock;
    forall i: Class ensures ListOk(mem', h.heads[i], h.lists[i], h.owners, i) {
      assert ListOk(mem, h.heads[i], h.lists[i], h.owners, i);
      LinkedElsewhere(mem, mem', h.heads[i], h.lists[i]);
    }
  }

  function WordOf(x: nat): nat {
    x - x % 8
  }

  lemma {:induction false} WordInBlock(b: nat, i: Class, x: nat)
    requires b % BLOCK_SIZES[i] == 0 && WordOf(x) == b
    ensures InExtent(x, b, Block(i))
  {
    SizeDivides(i);
  }

  /** Writing to a live allocation does not touch a free list. */
  lemma {:induction false} WriteKeeps(mem: Memory, mem': Memory, h: Heap, used: iset<nat>, a: nat, x: nat)
    requires HeapOk(mem, h, used) && a in h.live && InExtent(x, a, h.live[a])
    requires forall y: nat :: y != WordOf(x) ==> mem'(y) == mem(y)
    ensures HeapOk(mem', h, used)
  {
    hide LiveOk, WordOf;
    forall i: Class, b | b in h.lists[i] ensures b != WordOf(x) {
      if b == WordOf(x) {
        assert ListOk(mem, h.heads[i], h.lists[i], h.owners, i);
        WordInBlock(b, i, x);
        FreeNotLive(mem, h, used, a, b, i, x);
      }
    }
    HeapElsewhere(mem, mem', h, used);
  }

  /** The first block of a list becomes a live allocation. */
  function Popped(h: Heap, i: Class, next: nat): Heap
    requires |h.heads| == CLASSES && h.lists[i] != []
  {
    h.(heads := h.heads[i := next], lists := h.lists[i := h.lists[i][1..]], live := h.live[h.lists[i][0] := Block(i)])
  }

  lemma {:induction false} LinkedTail(mem: Memory, head: nat, list: seq<nat>)
    requires Linked(mem, head, list) && list != []
    ensures Linked(mem, mem(list[0]), list[1..])
  {
    assert LinkAt(mem, list, 0);
    forall k: nat | k < |list| - 1 ensures LinkAt(mem, list[1..], k) {
      assert LinkAt(mem, list, k + 1);
    }
  }

  lemma {:induction false} PopKeeps(mem: Memory, h: Heap, used: iset<nat>, i: Class)
    requires HeapOk(mem, h, used) && h.lists[i] != []
    ensures h.lists[i][0] !in h.live && h.lists[i][0] == h.heads[i] != 0 && IsBlock(h.owners, h.heads[i], i)
    ensures HeapOk(mem, Popped(h, i, mem(h.lists[i][0])), used)
  {
    hide Linked;
    var a, h' := h.lists[i][0], Popped(h, i, mem(h.lists[i][0]));
    assert ListOk(mem, h.heads[i], h.lists[i], h.owners, i);
    HeadOf(mem, h.heads[i], h.lists[i]);
    LinkedTail(mem, h.heads[i], h.lists[i]);
    if a in h.live {
      SizeDivides(i);
      assert InExtent(a, a, Block(i));
      FreeNotLive(mem, h, used, a, a, i, a);
      LivePositive(h, a);
    }
    forall j: Class ensures ListOk(mem, h'.heads[j], h'.lists[j], h'.owners, j) {
      assert ListOk(mem, h.heads[j], h.lists[j], h.owners, j);
    }
    forall b: nat | b in h'.live ensures LiveOk(b, h'.live[b], h'.owners, h'.lists) {
      assert b != a ==> LiveOk(b, h.live[b], h.owners, h.lists);
      assert a !in h.lists[i][1..];
    }
  }

  lemma HeadOf(mem: Memory, head: nat, list: seq<nat>)
    requires Linked(mem, head, list) && list != []
    ensures head == list[0]
  {
  }

  lemma LivePositive(h: Heap, a: nat)
    requires a in h.live && LiveOk(a, h.live[a], h.owners, h.lists)
    ensures InExtent(a, a, h.live[a])
  {
    if h.live[a].Block? {
      SizeDivides(h.live[a].index);
    }
  }

  /** A live block goes to the front of its list. */
  function Pushed(h: Heap, i: Class, a: nat): Heap
    requires |h.heads| == CLASSES
  {
    h.(heads := h.heads[i := a], lists := h.lists[i := [a] + h.lists[i]], live := h.live - {a})
  }

  lemma {:induction false} LinkedFront(mem: Memory, head: nat, list: seq<nat>, a: nat)
    requires Linked(mem, head, list) && mem(a) == head
    ensures Linked(mem, a, [a] + list)
  {
    var l := [a] + list;
    forall k: nat | k < |l| ensures LinkAt(mem, l, k) {
      if k > 0 {
        assert LinkAt(mem, list, k - 1);
      }
    }
  }

  lemma {:induction false} PushKeeps(mem: Memory, mem': Memory, h: Heap, used: iset<nat>, i: Class, a: nat)
    requires HeapOk(mem, h, used) && a in h.live && h.live[a] == Block(i)
    requires mem'(a) == h.heads[i] && forall y: nat :: y != a ==> mem'(y) == mem(y)
    ensures HeapOk(mem', Pushed(h, i, a), used)
  {
    hide Linked;
    assert LiveOk(a, Block(i), h.owners, h.lists);
    forall j: Class, b | b in h.lists[j] ensures b != a {
      assert ListOk(mem, h.heads[j], h.lists[j], h.owners, j);
      assert IsBlock(h.owners, b, j);
    }
    HeapElsewhere(mem, mem', h, used);
    var h' := Pushed(h, i, a);
    assert ListOk(mem', h.heads[i], h.lists[i], h.owners, i);
    LinkedFront(mem', h.heads[i], h.lists[i], a);
    forall j: Class ensures ListOk(mem', h'.heads[j], h'.lists[j], h'.owners, j) {
      assert ListOk(mem', h.heads[j], h.lists[j], h.owners, j);
    }
    forall b: nat | b in h'.live ensures LiveOk(b, h'.live[b], h'.owners, h'.lists) {
      assert LiveOk(b, h.live[b], h.owners, h.lists);
    }
  }

  // ---- a new frame for blocks ----

  function At(p: nat, size: nat, k: nat): nat {
    p + k * size
  }

  lemma {:induction false} AtNext(p: nat, size: nat, k: nat)
    ensures At(p, size, 0) == p && At(p, size, k + 1) == At(p, size, k) + size
  {
  }

  lemma {:induction false} AtBefore(p: nat, size: nat, j: nat, k: nat)
    requires j < k && size > 0
    ensures At(p, size, j) < At(p, size, k)
  {
    TimesMonotone(j + 1, k, size);
    assert (j + 1) * size == j * size + size;
  }

  /** The blocks of a frame. */
  function BlocksOf(f: nat, i: Class): seq<nat> {
    seq(FRAME_SIZE / BLOCK_SIZES[i], k requires k >= 0 => At(f * FRAME_SIZE, BLOCK_SIZES[i], k))
  }

  /** These are all blocks of the frame, each once. */
  lemma {:induction false} BlocksComplete(f: nat, i: Class, a: nat)
    ensures BlocksOf(f, i) != [] && BlocksOf(f, i)[0] == f * FRAME_SIZE
    ensures a in BlocksOf(f, i) <==> a / FRAME_SIZE == f && a % BLOCK_SIZES[i] == 0
  {
    SizeDivides(i);
    var s, p, l := BLOCK_SIZES[i], f * FRAME_SIZE, BlocksOf(f, i);
    AtNext(p, s, 0);
    if a in l {
      var k :| 0 <= k < |l| && l[k] == a;
      BlockAt(f, i, k);
    }
    if a / FRAME_SIZE == f && a % s == 0 {
      var k := BlockIndex(f, i, a);
      assert l[k] == a;
    }
  }

  lemma {:induction false} BlockIndex(f: nat, i: Class, a: nat) returns (k: nat)
    requires a / FRAME_SIZE == f && a % BLOCK_SIZES[i] == 0
    ensures k < FRAME_SIZE / BLOCK_SIZES[i] && At(f * FRAME_SIZE, BLOCK_SIZES[i], k) == a
  {
    SizeDivides(i);
    var s, r := BLOCK_SIZES[i], a % FRAME_SIZE;
    assert a == f * FRAME_SIZE + r;
    OffsetDivides(f, r, s);
    k := r / s;
    assert r == k * s;
    IndexBelow(r, s, k);
  }

  lemma {:induction false} IndexBelow(r: nat, s: nat, k: nat)
    requires s > 0 && FRAME_SIZE % s == 0 && r < FRAME_SIZE && r == k * s
    ensures k < FRAME_SIZE / s
  {
    var q := FRAME_SIZE / s;
    assert FRAME_SIZE == q * s;
    if q <= k {
      TimesMonotone(q, k, s);
    }
  }

  lemma {:induction false} BlockAt(f: nat, i: Class, k: nat)
    requires k < FRAME_SIZE / BLOCK_SIZES[i]
    ensures At(f * FRAME_SIZE, BLOCK_SIZES[i], k) / FRAME_SIZE == f && At(f * FRAME_SIZE, BLOCK_SIZES[i], k) % BLOCK_SIZES[i] == 0
  {
    SizeDivides(i);
    var s, r := BLOCK_SIZES[i], k * BLOCK_SIZES[i];
    var q := FRAME_SIZE / s;
    assert FRAME_SIZE == q * s;
    TimesMonotone(k + 1, q, s);
    assert (k + 1) * s == r + s;
    OffsetDivides(f, r, s);
    RemainderOf(r, k, 0, s);
  }

  lemma {:induction false} BlocksDistinct(f: nat, i: Class)
    ensures Distinct(BlocksOf(f, i))
  {
    SizeDivides(i);
    var l := BlocksOf(f, i);
    forall j, k | 0 <= j < k < |l| ensures l[j] != l[k] {
      AtBefore(f * FRAME_SIZE, BLOCK_SIZES[i], j, k);
    }
  }

  function Refilled(h: Heap, i: Class, f: nat): Heap
    requires |h.heads| == CLASSES
  {
    h.(heads := h.heads[i := f * FRAME_SIZE], lists := h.lists[i := BlocksOf(f, i)], owners := h.owners[f := Blocks(i)])
  }

  lemma {:induction false} RefillKeeps(mem: Memory, mem': Memory, h: Heap, used: iset<nat>, i: Class, f: nat)
    requires HeapOk(mem, h, used) && h.lists[i] == [] && f !in used && f > 0
    requires Linked(mem', f * FRAME_SIZE, BlocksOf(f, i)) && forall y: nat :: y / FRAME_SIZE != f ==> mem'(y) == mem(y)
    ensures HeapOk(mem', Refilled(h, i, f), used + iset{f})
  {
    hide BlocksOf, Linked;
    var h' := Refilled(h, i, f);
    forall j: Class, b | b in h.lists[j] ensures b / FRAME_SIZE != f {
      assert ListOk(mem, h.heads[j], h.lists[j], h.owners, j);
      assert IsBlock(h.owners, b, j);
    }
    HeapElsewhere(mem, mem', h, used);
    BlocksDistinct(f, i);
    forall j: Class ensures ListOk(mem', h'.heads[j], h'.lists[j], h'.owners, j) {
      assert ListOk(mem', h.heads[j], h.lists[j], h.owners, j);
      if j == i {
        forall a | a in BlocksOf(f, i) ensures IsBlock(h'.owners, a, i) {
          BlocksComplete(f, i, a);
        }
      }
    }
    forall b: nat | b in h'.live ensures LiveOk(b, h'.live[b], h'.owners, h'.lists) {
      assert LiveOk(b, h.live[b], h.owners, h.lists);
      if h.live[b] == Block(i) {
        BlocksComplete(f, i, b);
      }
    }
  }

  lemma {:induction false} RefillLosesNothing(h: Heap, i: Class, f: nat)
    requires |h.heads| == CLASSES && NothingLost(h) && h.lists[i] == []
    ensures NothingLost(Refilled(h, i, f))
  {
    hide BlocksOf;
    var h' := Refilled(h, i, f);
    forall a: nat, j: Class | IsBlock(h'.owners, a, j) ensures a in h'.lists[j] || (a in h'.live && h'.live[a] == Block(j)) {
      if a / FRAME_SIZE == f {
        BlocksComplete(f, i, a);
      } else {
        assert IsBlock(h.owners, a, j);
      }
    }
  }

  lemma {:induction false} PopLosesNothing(h: Heap, i: Class, next: nat)
    requires |h.heads| == CLASSES && NothingLost(h) && h.lists[i] != [] && h.lists[i][0] !in h.live
    ensures NothingLost(Popped(h, i, next))
  {
    var a, h' := h.lists[i][0], Popped(h, i, next);
    assert forall b :: b in h.lists[i] ==> b == a || b in h.lists[i][1..];
    forall b: nat, j: Class | IsBlock(h'.owners, b, j) ensures b in h'.lists[j] || (b in h'.live && h'.live[b] == Block(j)) {
      assert b in h.lists[j] || b in h.live;
    }
  }

  lemma {:induction false} PushLosesNothing(h: Heap, i: Class, a: nat)
    requires |h.heads| == CLASSES && NothingLost(h) && a in h.live && h.live[a] == Block(i)
    ensures NothingLost(Pushed(h, i, a))
  {
    var h' := Pushed(h, i, a);
    forall b: nat, j: Class | IsBlock(h'.owners, b, j) ensures b in h'.lists[j] || (b in h'.live && h'.live[b] == Block(j)) {
      assert b in h.lists[j] || (b in h.live && h.live[b] == Block(j));
    }
  }

  // ---- whole frames ----

  function Owning(owners: Owners, f: nat, n: nat): Owners {
    owners + map g: nat | f <= g < f + n && Within(g, f, n) :: Whole(f, n)
  }

  function Disowning(owners: Owners, f: nat, n: nat): Owners {
    map g | g in owners && !Within(g, f, n) :: owners[g]
  }

  lemma {:induction false} TakeKeeps(mem: Memory, h: Heap, used: iset<nat>, f: nat, n: nat)
    requires HeapOk(mem, h, used) && n > 0 && f > 0 && forall g: nat :: Within(g, f, n) ==> g !in used
    ensures f * FRAME_SIZE !in h.live
    ensures HeapOk(mem, h.(owners := Owning(h.owners, f, n), live := h.live[f * FRAME_SIZE := Frames(n)]), used + Range(f, n))
    ensures NothingLost(h) ==> NothingLost(h.(owners := Owning(h.owners, f, n), live := h.live[f * FRAME_SIZE := Frames(n)]))
  {
    hide Linked;
    var a, h' := f * FRAME_SIZE, h.(owners := Owning(h.owners, f, n), live := h.live[f * FRAME_SIZE := Frames(n)]);
    assert Within(f, f, n);
    if a in h.live {
      LivePositive(h, a);
      ByteOf(h, a, a);
    }
    forall j: Class ensures ListOk(mem, h'.heads[j], h'.lists[j], h'.owners, j) {
      assert ListOk(mem, h.heads[j], h.lists[j], h.owners, j);
    }
    forall b: nat | b in h'.live ensures LiveOk(b, h'.live[b], h'.owners, h'.lists) {
      assert b != a ==> LiveOk(b, h.live[b], h.owners, h.lists);
    }
  }

  /** Giving frames back takes them from nobody else. */
  lemma {:induction false} OthersKeep(h: Heap, a: nat, n: nat)
    requires LiveOk(a, Frames(n), h.owners, h.lists)
    ensures var owners' := Disowning(h.owners, a / FRAME_SIZE, n);
            && (forall g: nat :: g in h.owners && h.owners[g] != Whole(a / FRAME_SIZE, n) ==> g in owners' && owners'[g] == h.owners[g])
            && (forall g: nat :: g in owners' ==> g in h.owners && owners'[g] == h.owners[g] && !Within(g, a / FRAME_SIZE, n))
  {
  }

  lemma {:induction false} GiveKeeps(mem: Memory, h: Heap, used: iset<nat>, a: nat, n: nat)
    requires HeapOk(mem, h, used) && a in h.live && h.live[a] == Frames(n)
    ensures HeapOk(mem, h.(owners := Disowning(h.owners, a / FRAME_SIZE, n), live := h.live - {a}), used - Range(a / FRAME_SIZE, n))
    ensures NothingLost(h) ==> NothingLost(h.(owners := Disowning(h.owners, a / FRAME_SIZE, n), live := h.live - {a}))
  {
    var h' := h.(owners := Disowning(h.owners, a / FRAME_SIZE, n), live := h.live - {a});
    OthersKeep(h, a, n);
    hide Linked, Disowning;
    forall j: Class ensures ListOk(mem, h'.heads[j], h'.lists[j], h'.owners, j) {
      assert ListOk(mem, h.heads[j], h.lists[j], h.owners, j);
    }
    forall b: nat | b in h'.live ensures LiveOk(b, h'.live[b], h'.owners, h'.lists) {
      GiveOther(h, a, n, b);
    }
    if NothingLost(h) {
      forall b: nat, i: Class | IsBlock(h'.owners, b, i) ensures b in h'.lists[i] || (b in h'.live && h'.live[b] == Block(i)) {
        assert IsBlock(h.owners, b, i);
      }
    }
  }

  lemma {:induction false} GiveOther(h: Heap, a: nat, n: nat, b: nat)
    requires LiveOk(a, Frames(n), h.owners, h.lists) && b in h.live && b != a && LiveOk(b, h.live[b], h.owners, h.lists)
    ensures LiveOk(b, h.live[b], Disowning(h.owners, a / FRAME_SIZE, n), h.lists)
  {
    OthersKeep(h, a, n);
    hide Disowning;
  }

  // ---- the allocator ----

  function Store(mem: Memory, a: nat, v: nat): Memory {
    (x: nat) => if x == a then v else mem(x)
  }

  /** Frames below 64 GiB are mapped. */
  const MAPPED_FRAMES: nat := 0x100_0000

  lemma {:induction false} Aligned(p: nat, size: nat, align: nat)
    requires size > 0 && align > 0 && p % size == 0 && size % align == 0
    ensures p % align == 0
  {
    var k, m := p / size, size / align;
    assert p == k * size && size == m * align;
    assert k * (m * align) == (k * m) * align;
    RemainderOf(p, k * m, 0, align);
  }

  class KernelAllocator {
    const frames: BitmapFrameManager
    var heads: seq<nat>
    var mem: Memory
    ghost var lists: Lists
    ghost var live: map<nat, Mode>
    ghost var owners: Owners

    ghost function State(): Heap
      reads this
    {
      Heap(heads, lists, live, owners)
    }

    ghost predicate FramesOk()
      reads frames
    {
      frames.Valid() && frames.begin > 0 && frames.end <= MAPPED_FRAMES
    }

    ghost predicate Valid()
      reads this, frames, frames.allocMap
    {
      FramesOk() && HeapOk(mem, State(), frames.Allocated()) && NothingLost(State())
    }

    constructor (frames: BitmapFrameManager, mem: Memory)
      requires frames.Valid() && frames.begin > 0 && frames.end <= MAPPED_FRAMES
      ensures Valid() && this.frames == frames && this.mem == mem && live == map[]
    {
      this.frames := frames;
      this.mem := mem;
      heads := seq(CLASSES, _ => 0);
      lists := seq(CLASSES, _ => []);
      live, owners := map[], map[];
    }

    /** Links the blocks of a frame. */
    method Format(f: nat, i: Class)
      modifies this`mem
      ensures Linked(mem, f * FRAME_SIZE, BlocksOf(f, i))
      ensures forall y: nat :: y / FRAME_SIZE != f ==> mem(y) == old(mem)(y)
    {
      hide At;
      SizeDivides(i);
      var size := BLOCK_SIZES[i];
      var num, p := FRAME_SIZE / size, f * FRAME_SIZE;
      ghost var l := BlocksOf(f, i);
      BlocksComplete(f, i, p);
      BlocksDistinct(f, i);
      for k := 0 to num
        invariant forall j: nat :: j < k ==> LinkAt(mem, l, j)
        invariant forall y: nat :: y / FRAME_SIZE != f ==> mem(y) == old(mem)(y)
      {
        AtNext(p, size, k);
        BlockAt(f, i, k);
        var current := At(p, size, k);
        var next := if k == num - 1 then 0 else current + size;
        ghost var was := mem;
        mem := Store(mem, current, next);
        forall j: nat | j < k ensures LinkAt(mem, l, j) {
          assert LinkAt(was, l, j) && l[j] != l[k];
        }
      }
    }
  
    /** allocate_frame_for_block: the first block of a new frame, or null when there is no frame. */
    method Refill(i: Class) returns (ptr: nat)
      requires Valid() && lists[i] == []
      modifies this`mem, this`lists, this`owners, frames.allocMap
      ensures FramesOk() && |heads| == CLASSES
      ensures HeapOk(mem, State().(heads := heads[i := ptr]), frames.Allocated()) && NothingLost(State().(heads := heads[i := ptr]))
      ensures ptr != 0 <==> lists[i] != []
      ensures ptr == 0 ==> lists == old(lists) && mem == old(mem) && NoFrames(old(frames.Allocated()), 1)
      ensures ptr != 0 ==> AtFirstFit(old(frames.Allocated()), 1, ptr)
      ensures forall y: nat :: y / FRAME_SIZE in old(frames.Allocated()) ==> mem(y) == old(mem)(y)
    {
      hide HeapOk, NothingLost, BlocksOf, BitmapFrameManager.Allocated, Linked;
      HeadNull(mem, State(), frames.Allocated(), i);
      ghost var h := State();
      var r := frames.Allocate(1);
      if r.Err? {
        assert heads[i := 0] == heads;
        return 0;
      }
      var f := r.value;
      assert Within(f, f, 1);
      assert Range(f, 1) == iset{f};
      ghost var was := mem;
      Format(f, i);
      RefillKeeps(was, mem, h, old(frames.Allocated()), i, f);
      RefillLosesNothing(h, i, f);
      BlocksComplete(f, i, 0);
      ptr := f * FRAME_SIZE;
      lists := lists[i := BlocksOf(f, i)];
      owners := owners[f := Blocks(i)];
    }

    /** The block branch of alloc. */
    method AllocBlock(i: Class) returns (ptr: nat)
      requires Valid()
      modifies this`heads, this`mem, this`lists, this`live, this`owners, frames.allocMap
      ensures Valid()
      ensures ptr != 0 ==> ptr !in old(live) && live == old(live)[ptr := Block(i)] && ptr % BLOCK_SIZES[i] == 0
      ensures ptr == 0 ==> live == old(live) && lists == old(lists) && old(lists)[i] == [] && NoFrames(old(frames.Allocated()), 1)
      ensures old(lists)[i] != [] ==> ptr == old(lists)[i][0]
      ensures ptr != 0 && old(lists)[i] == [] ==> AtFirstFit(old(frames.Allocated()), 1, ptr)
      ensures forall y: nat :: y / FRAME_SIZE in old(frames.Allocated()) ==> mem(y) == old(mem)(y)
    {
      hide HeapOk, NothingLost, BlocksOf, BitmapFrameManager.Allocated, Linked;
      HeadNull(mem, State(), frames.Allocated(), i);
      ptr := heads[i];
      if ptr == 0 {
        ptr := Refill(i);
      }
      assert ptr != 0 || heads[i := ptr] == heads;
      ghost var h := State().(heads := heads[i := ptr]);
      assert old(heads)[i] != 0 ==> h == State();
      if ptr != 0 {
        PopKeeps(mem, h, frames.Allocated(), i);
        PopLosesNothing(h, i, mem(ptr));
        heads := heads[i := mem(ptr)];
        live := live[ptr := Block(i)];
        lists := lists[i := lists[i][1..]];
        assert h.heads[i := mem(ptr)] == heads;
      }
    }

    /** The frame branch of alloc. */
    method AllocFrames(n: nat) returns (ptr: nat)
      requires Valid() && n > 0
      modifies this`live, this`owners, frames.allocMap
      ensures Valid()
      ensures ptr != 0 ==> ptr !in old(live) && live == old(live)[ptr := Frames(n)] && AtFirstFit(old(frames.Allocated()), n, ptr)
      ensures ptr == 0 ==> live == old(live) && NoFrames(old(frames.Allocated()), n)
    {
      hide HeapOk, NothingLost, BitmapFrameManager.Allocated, Owning;
      var r := frames.Allocate(n);
      if r.Err? {
        return 0;
      }
      var f := r.value;
      TakeKeeps(mem, State(), old(frames.Allocated()), f, n);
      ptr := f * FRAME_SIZE;
      owners := Owning(owners, f, n);
      live := live[ptr := Frames(n)];
    }

    /** GlobalAlloc::alloc: room for the layout that no live allocation has: the first free block, else the
        first fit of frames, and null exactly when there are none. Above the frame size it is aligned
        exactly when the number of the first fitting frame is. */
    method Alloc(size: nat, align: nat) returns (ptr: nat)
      requires Valid() && IsPowerOfTwo(align)
      modifies this, frames.allocMap
      ensures Valid()
      ensures ptr != 0 ==>
                && ptr !in old(live) && live == old(live)[ptr := ModeOf(size, align)]
                && size <= ModeOf(size, align).Bytes() && (align <= FRAME_SIZE ==> ptr % align == 0)
      ensures ptr == 0 ==>
                && live == old(live)
                && match ModeOf(size, align)
                   case Block(i) => old(lists)[i] == [] && NoFrames(old(frames.Allocated()), 1)
                   case Frames(n) => NoFrames(old(frames.Allocated()), n)
      ensures ptr != 0 ==>
                match ModeOf(size, align)
                case Block(i) => if old(lists)[i] != [] then ptr == old(lists)[i][0] else AtFirstFit(old(frames.Allocated()), 1, ptr)
                case Frames(n) => AtFirstFit(old(frames.Allocated()), n, ptr)
      ensures align > FRAME_SIZE ==> ModeOf(size, align).Frames? && align / FRAME_SIZE > 0
      ensures forall f: nat :: align > FRAME_SIZE && FirstFit(old(frames.Allocated()), frames.begin, frames.end, ModeOf(size, align).num, f) ==>
                ptr == f * FRAME_SIZE && (ptr % align == 0 <==> f % (align / FRAME_SIZE) == 0)
      ensures forall y: nat :: y / FRAME_SIZE in old(frames.Allocated()) ==> mem(y) == old(mem)(y)
    {
      hide HeapOk, NothingLost, BitmapFrameManager.Allocated, ClassFrom, Pow2;
      ModeFits(size, align);
      PowersPositive(align);
      match ModeOf(size, align) {
        case Block(i) =>
          ptr := AllocBlock(i);
          if ptr != 0 {
            SizeDivides(i);
            Aligned(ptr, BLOCK_SIZES[i], align);
          }
        case Frames(n) =>
          ptr := AllocFrames(n);
          if ptr != 0 && align <= FRAME_SIZE {
            Aligned(ptr, FRAME_SIZE, align);
          }
          if ptr != 0 && align > FRAME_SIZE {
            forall f: nat | FirstFit(old(frames.Allocated()), frames.begin, frames.end, n, f)
              ensures ptr == f * FRAME_SIZE && (ptr % align == 0 <==> f % (align / FRAME_SIZE) == 0)
            {
              FrameAlignment(f, align);
              assert f == ptr / FRAME_SIZE;
            }
          }
      }
    }

    /** GlobalAlloc::dealloc of a live allocation. */
    method Dealloc(ptr: nat, size: nat, align: nat)
      requires Valid() && ptr in live && live[ptr] == ModeOf(size, align)
      modifies this, frames.allocMap
      ensures Valid() && live == old(live) - {ptr}
      ensures forall y: nat :: y != ptr ==> mem(y) == old(mem)(y)
    {
      hide HeapOk, NothingLost, BitmapFrameManager.Allocated, ModeOf, Disowning;
      match ModeOf(size, align) {
        case Block(i) =>
          HeadNull(mem, State(), frames.Allocated(), i);
          ghost var was := mem;
          mem := Store(mem, ptr, heads[i]);
          PushKeeps(was, mem, State(), frames.Allocated(), i, ptr);
          PushLosesNothing(State(), i, ptr);
          heads := heads[i := ptr];
          lists := lists[i := [ptr] + lists[i]];
          live := live - {ptr};
        case Frames(n) =>
          var f := ptr / FRAME_SIZE;
          GiveKeeps(mem, State(), frames.Allocated(), ptr, n);
          LastFrame(mem, State(), frames.Allocated(), ptr, n);
          frames.InMap(f + (n - 1));
          frames.Mark(f, n, false);
          owners := Disowning(owners, f, n);
          live := live - {ptr};
      }
    }

    /** A client writes into its memory. */
    method Write(x: nat, v: nat, ghost a: nat)
      requires Valid() && a in live && InExtent(x, a, live[a])
      modifies this`mem
      ensures Valid()
    {
      hide HeapOk, NothingLost, BitmapFrameManager.Allocated, WordOf;
      ghost var was := mem;
      mem := Store(mem, WordOf(x), v);
      WriteKeeps(was, mem, State(), frames.Allocated(), a, x);
    }

    /** The address of the least start of `n` free frames. */
    ghost predicate AtFirstFit(used: iset<nat>, n: nat, ptr: nat)
      reads frames
    {
      ptr % FRAME_SIZE == 0 && FirstFit(used, frames.begin, frames.end, n, ptr / FRAME_SIZE)
    }

    /** There are no `n` free frames in a row. */
    ghost predicate NoFrames(used: iset<nat>, n: nat)
      reads frames
    {
      forall g: nat :: frames.begin <= g ==> !FreeRun(used, g, n, frames.end)
    }
  }

  lemma {:induction false} LastFrame(mem: Memory, h: Heap, used: iset<nat>, a: nat, n: nat)
    requires HeapOk(mem, h, used) && a in h.live && h.live[a] == Frames(n)
    ensures n > 0 && a / FRAME_SIZE + (n - 1) in used
  {
    assert LiveOk(a, Frames(n), h.owners, h.lists);
    assert Within(a / FRAME_SIZE + (n - 1), a / FRAME_SIZE, n);
  }

  lemma PowersPositive(x: nat)
    requires IsPowerOfTwo(x)
    ensures x > 0
  {
  }

  lemma {:induction false} HeadNull(mem: Memory, h: Heap, used: iset<nat>, i: Class)
    requires HeapOk(mem, h, used)
    ensures |h.heads| == CLASSES && (h.heads[i] == 0 <==> h.lists[i] == [])
  {
    assert ListOk(mem, h.heads[i], h.lists[i], h.owners, i);
    if h.lists[i] != [] {
      assert h.lists[i][0] in h.lists[i];
      assert IsBlock(h.owners, h.lists[i][0], i);
    }
  }

  /** With all frames free, two frames aligned to two frames start at the odd frame 1. */
  method MisalignedFrames() returns (ptr: nat)
    ensures ptr == FRAME_SIZE && ptr % 8192 != 0
  {
    hide BitmapFrameManager.Allocated;
    var frames := new BitmapFrameManager(1);
    var a := new KernelAllocator(frames, (_: nat) => 0);
    PowerOfTwo8192();
    assert FirstFit(frames.Allocated(), 1, 64, 2, 1);
    assert ModeOf(8192, 8192) == Frames(2);
    ptr := a.Alloc(8192, 8192);
  }

  lemma PowerOfTwo8192()
    ensures IsPowerOfTwo(8192)
  {
    FramePower();
    assert Pow2(13) == 8192;
  }
}
