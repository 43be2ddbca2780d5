/** Split virtqueues, devices/virtio/queue.rs. */
module VirtQueues {
  import opened Bytes
  import opened Remainders

  /** What the driver hands to the device. */
  datatype Buffer<T> = Buffer(addr: nat, len: nat, write: bool, data: T)

  datatype Descriptor = Descriptor(addr: nat, len: nat, write: bool, next: Option<nat>) {
    /** Descriptor::refer: lengths are cut to 32 bits, the link stays. */
    function Refer<T>(b: Buffer<T>): Descriptor {
      Descriptor(b.addr, b.len % 0x1_0000_0000, b.write, next)
    }
  }

  type Table = seq<Descriptor>

  // ---- counters and ring slots ----

  /** The ring slot of the `x`-th element, by way of a 16-bit index. */
  function SlotOf(x: nat, n: nat): (i: nat)
    requires n > 0
    ensures i < n
  {
    x % 0x1_0000 % n
  }

  /** The slots of any `n` successive elements are all different. */
  ghost predicate SlotsDistinct(n: nat)
    requires n > 0
  {
    forall x: nat, y: nat :: x < y < x + n ==> SlotOf(x, n) != SlotOf(y, n)
  }

  lemma {:induction false} ModOfMultiple(x: nat, n: nat)
    requires n > 0 && 0x1_0000 % n == 0
    ensures SlotOf(x, n) == x % n
  {
    var k := 0x1_0000 / n;
    var q, r := x / 0x1_0000, x % 0x1_0000;
    assert x == q * 0x1_0000 + r;
    assert 0x1_0000 == k * n;
    assert x == (q * k) * n + r by {
      assert q * (k * n) == (q * k) * n;
    }
    SameRemainder(r, q * k, n);
  }

  /** Slots are distinct across the wrap of the 16-bit index exactly for sizes that divide 65536. */
  lemma {:induction false} SlotsDistinctIff(n: nat)
    requires 0 < n <= 0x1_0000
    ensures SlotsDistinct(n) <==> 0x1_0000 % n == 0
  {
    if 0x1_0000 % n == 0 {
      forall x: nat, y: nat | x < y < x + n ensures SlotOf(x, n) != SlotOf(y, n) {
        ModOfMultiple(x, n);
        ModOfMultiple(y, n);
        if x % n == y % n {
          CloseRemainders(x, y, n);
        }
      }
    } else {
      WrapCollides(n);
    }
  }

  lemma {:induction false} WrapCollides(n: nat)
    requires 0 < n <= 0x1_0000 && 0x1_0000 % n != 0
    ensures !SlotsDistinct(n)
  {
    var r := 0x1_0000 % n;
    var x, y := 0x1_0000 - r, 0x1_0000;
    var q := 0x1_0000 / n;
    assert 0x1_0000 == q * n + r;
    SameRemainder(0, q, n);
    assert SlotOf(x, n) == 0 == SlotOf(y, n);
  }

  // ---- descriptor chains ----

  ghost predicate LinkAt(table: Table, c: seq<nat>, i: nat)
    requires i < |c| && c[i] < |table|
  {
    table[c[i]].next == if i + 1 < |c| then Some(c[i + 1]) else None
  }

  /** Each descriptor of `c` links to the next one, and the last one to none. */
  ghost predicate Linked(table: Table, c: seq<nat>) {
    forall i: nat :: i < |c| ==> c[i] < |table| && LinkAt(table, c, i)
  }

  lemma {:induction false} LinkedElsewhere(table: Table, table': Table, c: seq<nat>)
    requires Linked(table, c) && |table'| == |table|
    requires forall d :: d in c && d < |table| ==> table'[d].next == table[d].next
    ensures Linked(table', c)
  {
    forall i: nat | i < |c| ensures c[i] < |table'| && LinkAt(table', c, i) {
      assert c[i] < |table| && LinkAt(table, c, i) && c[i] in c;
    }
  }

  /** All descriptors of some chains. */
  ghost function Bag(cs: seq<seq<nat>>): multiset<nat> {
    if cs == [] then multiset{} else multiset(cs[0]) + Bag(cs[1..])
  }

  lemma {:induction false} BagJoins(a: seq<seq<nat>>, b: seq<seq<nat>>)
    ensures Bag(a + b) == Bag(a) + Bag(b)
  {
    if a == [] {
      assert a + b == b;
    } else {
      BagJoins(a[1..], b);
      BagJoinsFirst(a, b);
    }
  }

  lemma {:induction false} BagJoinsFirst(a: seq<seq<nat>>, b: seq<seq<nat>>)
    requires a != [] && Bag(a[1..] + b) == Bag(a[1..]) + Bag(b)
    ensures Bag(a + b) == Bag(a) + Bag(b)
  {
    hide Bag;
    BagFirst(a);
    BagFirst(a + b);
    assert (a + b)[1..] == a[1..] + b;
  }

  lemma {:induction false} BagOne(c: seq<nat>)
    ensures Bag([c]) == multiset(c)
  {
    assert [c][1..] == [];
  }

  lemma {:induction false} BagFirst(cs: seq<seq<nat>>)
    requires cs != []
    ensures Bag(cs) == multiset(cs[0]) + Bag(cs[1..])
  {
  }

  /** Without the `k`-th chain. */
  function Without(cs: seq<seq<nat>>, k: nat): seq<seq<nat>>
    requires k < |cs|
  {
    cs[..k] + cs[k + 1..]
  }

  lemma {:induction false} BagWithout(cs: seq<seq<nat>>, k: nat)
    requires k < |cs|
    ensures Bag(cs) == multiset(cs[k]) + Bag(Without(cs, k))
  {
    BagJoins(cs[..k], cs[k..]);
    BagJoins(cs[..k], cs[k + 1..]);
    assert cs == cs[..k] + cs[k..] && cs[k..][1..] == cs[k + 1..];
  }

  lemma {:induction false} InBag(cs: seq<seq<nat>>, c: seq<nat>, d: nat)
    requires c in cs && d in c
    ensures d in Bag(cs)
  {
    var k :| 0 <= k < |cs| && cs[k] == c;
    BagWithout(cs, k);
    assert d in multiset(cs[k]);
  }

  lemma {:induction false} BagSize(cs: seq<seq<nat>>)
    requires forall c :: c in cs ==> c != []
    ensures |Bag(cs)| >= |cs|
  {
    if cs != [] {
      assert forall c :: c in cs[1..] ==> c in cs;
      BagSize(cs[1..]);
      assert cs[0] in cs;
    }
  }

  // ---- where the descriptors are ----

  /** The free list; the chains that the device has not seen yet, that it works on, and that it has
      given back; and the number of chains ever made available and ever given back. */
  datatype Places = Places(
    free: seq<nat>,
    avail: seq<seq<nat>>,
    held: seq<seq<nat>>,
    used: seq<seq<nat>>,
    availCount: nat,
    usedCount: nat
  ) {

    ghost function Chains(): seq<seq<nat>> {
      avail + held + used
    }

    ghost function All(): multiset<nat> {
      multiset(free) + Bag(Chains())
    }
  }

  ghost function Everything(n: nat): (m: multiset<nat>)
    ensures forall d: nat :: m[d] == if d < n then 1 else 0
    ensures |m| == n
  {
    if n == 0 then multiset{} else Everything(n - 1) + multiset{n - 1}
  }

  ghost predicate ChainsOk(table: Table, cs: seq<seq<nat>>) {
    forall c :: c in cs ==> c != [] && Linked(table, c)
  }

  lemma {:induction false} ChainsElsewhere(table: Table, table': Table, cs: seq<seq<nat>>)
    requires ChainsOk(table, cs) && |table'| == |table|
    requires forall d: nat :: d in Bag(cs) && d < |table| ==> table'[d].next == table[d].next
    ensures ChainsOk(table', cs)
  {
    hide Linked;
    forall c | c in cs ensures Linked(table', c) {
      forall d | d in c && d < |table| ensures table'[d].next == table[d].next {
        InBag(cs, c, d);
      }
      LinkedElsewhere(table, table', c);
    }
  }

  /** The ring shows the heads of `cs` as its elements `first` and on. */
  ghost predicate RingShows(ring: seq<nat>, first: nat, cs: seq<seq<nat>>)
    requires |ring| > 0
  {
    forall k: nat :: k < |cs| ==> cs[k] != [] && ring[SlotOf(first + k, |ring|)] == cs[k][0]
  }

  /** Free list and chains partition the descriptors 0 to n - 1. */
  ghost predicate Partition(table: Table, w: Places) {
    && Linked(table, w.free)
    && ChainsOk(table, w.Chains())
    && w.All() == Everything(|table|)
  }

  lemma {:induction false} Twice(s: seq<nat>, i: nat, j: nat)
    requires i < j < |s| && s[i] == s[j]
    ensures multiset(s)[s[i]] >= 2
  {
    assert s == s[..j] + s[j..];
    assert s[i] in s[..j] && s[i] in s[j..];
  }

  ghost predicate Distinct(s: seq<nat>) {
    forall i, j :: 0 <= i < j < |s| ==> s[i] != s[j]
  }

  lemma {:induction false} OnceOnly(s: seq<nat>, rest: multiset<nat>, n: nat)
    requires multiset(s) + rest == Everything(n)
    ensures Distinct(s) && (forall d :: d in s ==> d < n && d !in rest)
  {
    forall i, j | 0 <= i < j < |s| && s[i] == s[j] ensures (multiset(s) + rest)[s[i]] >= 2 {
      Twice(s, i, j);
    }
    forall d | d in s ensures d < n && d !in rest {
      assert d in multiset(s);
      assert (multiset(s) + rest)[d] == Everything(n)[d];
    }
  }

  /** No descriptor occurs twice. */
  lemma {:induction false} FreeOnce(table: Table, w: Places)
    requires Partition(table, w)
    ensures Distinct(w.free) && (forall d :: d in w.free ==> d < |table| && d !in Bag(w.Chains()))
    ensures |w.free| + |Bag(w.Chains())| == |table|
  {
    hide Linked;
    OnceOnly(w.free, Bag(w.Chains()), |table|);
    assert |w.All()| == |w.free| + |Bag(w.Chains())|;
  }

  // ---- steps of driver and device ----

  function Transferred(w: Places, k: nat): Places
    requires k <= |w.free|
  {
    w.(free := w.free[k..], avail := w.avail + [w.free[..k]], availCount := w.availCount + 1)
  }

  lemma {:induction false} LinkedTail(table: Table, c: seq<nat>, k: nat)
    requires Linked(table, c) && k <= |c|
    ensures Linked(table, c[k..])
  {
    var t := c[k..];
    forall i: nat | i < |t| ensures t[i] < |table| && LinkAt(table, t, i) {
      assert c[i + k] < |table| && LinkAt(table, c, i + k);
    }
  }

  lemma {:induction false} LinkedHead(table: Table, table': Table, c: seq<nat>, k: nat)
    requires Linked(table, c) && 0 < k <= |c| && Distinct(c) && |table'| == |table|
    requires forall d: nat :: d < |table| ==> table'[d].next == if d == c[k - 1] then None else table[d].next
    ensures Linked(table', c[..k])
  {
    hide LinkAt;
    var t, l := c[..k], c[k - 1];
    forall i: nat | i < |t| ensures t[i] < |table'| && LinkAt(table', t, i) {
      assert c[i] < |table| && LinkAt(table, c, i);
      assert i < k - 1 ==> c[i] != l;
      LinkKept(table, table', c, k, i);
    }
  }

  lemma {:induction false} LinkKept(table: Table, table': Table, c: seq<nat>, k: nat, i: nat)
    requires i < k <= |c| && c[i] < |table| == |table'| && LinkAt(table, c, i)
    requires table'[c[i]].next == if i == k - 1 then None else table[c[i]].next
    ensures LinkAt(table', c[..k], i)
  {
  }

  lemma {:induction false} TransferMoves(w: Places, k: nat)
    requires k <= |w.free|
    ensures Transferred(w, k).All() == w.All()
    ensures forall c :: c in Transferred(w, k).Chains() ==> c in w.Chains() || c == w.free[..k]
  {
    var c, rest := w.free[..k], w.held + w.used;
    assert w.Chains() == w.avail + rest;
    assert Transferred(w, k).Chains() == w.avail + [c] + rest;
    BagJoins(w.avail, rest);
    BagJoins(w.avail + [c], rest);
    BagJoins(w.avail, [c]);
    BagOne(c);
    assert w.free == w.free[..k] + w.free[k..];
  }

  lemma {:induction false} TransferKeeps(table: Table, table': Table, w: Places, k: nat)
    requires Partition(table, w) && 0 < k <= |w.free| && |table'| == |table|
    requires forall d: nat :: d < |table| ==> table'[d].next == if d == w.free[k - 1] then None else table[d].next
    ensures Partition(table', Transferred(w, k))
  {
    hide Linked, Bag, Places.All;
    FreeOnce(table, w);
    TransferMoves(w, k);
    LinkedTail(table, w.free, k);
    LinkedElsewhere(table, table', w.free[k..]);
    LinkedHead(table, table', w.free, k);
    ChainsElsewhere(table, table', w.Chains());
  }

  function Fetched(w: Places): Places
    requires w.avail != []
  {
    w.(avail := w.avail[1..], held := w.held + [w.avail[0]])
  }

  function Returned(w: Places, k: nat): Places
    requires k < |w.held|
  {
    w.(held := Without(w.held, k), used := w.used + [w.held[k]], usedCount := w.usedCount + 1)
  }

  /** The first descriptor of the first chain given back goes to the front of the free list. */
  function Freed(w: Places): Places
    requires w.used != [] && w.used[0] != []
  {
    var c, rest := w.used[0], w.used[1..];
    w.(free := [c[0]] + w.free, used := if |c| == 1 then rest else [c[1..]] + rest)
  }

  function Reversed(c: seq<nat>): seq<nat> {
    if c == [] then [] else [c[|c| - 1]] + Reversed(c[..|c| - 1])
  }

  /** The first `k` descriptors of the first chain given back are free again. */
  function FreedUpTo(w: Places, k: nat): Places
    requires w.used != [] && k <= |w.used[0]|
  {
    var c, rest := w.used[0], w.used[1..];
    w.(free := Reversed(c[..k]) + w.free, used := if k == |c| then rest else [c[k..]] + rest)
  }

  lemma {:induction false} FreedNext(w: Places, k: nat)
    requires w.used != [] && k < |w.used[0]|
    ensures FreedUpTo(w, k).used != [] && FreedUpTo(w, k).used[0] == w.used[0][k..]
    ensures Freed(FreedUpTo(w, k)) == FreedUpTo(w, k + 1)
  {
    var c, rest := w.used[0], w.used[1..];
    var v := FreedUpTo(w, k);
    assert v.used[1..] == rest;
    assert c[k..][1..] == c[k + 1..];
    assert c[..k + 1][..k] == c[..k];
    assert [c[k]] + (Reversed(c[..k]) + w.free) == [c[k]] + Reversed(c[..k]) + w.free;
  }

  lemma {:induction false} FreedNone(w: Places)
    requires w.used != [] && w.used[0] != []
    ensures FreedUpTo(w, 0) == w
  {
    assert [w.used[0]] + w.used[1..] == w.used;
    assert Reversed(w.used[0][..0]) + w.free == w.free;
  }

  lemma {:induction false} ChainOnce(table: Table, w: Places, c: seq<nat>)
    requires Partition(table, w) && c in w.Chains()
    ensures c != [] && Distinct(c) && forall i: nat :: i < |c| ==> c[i] < |table|
  {
    hide Linked, Bag;
    var cs := w.Chains();
    var k :| 0 <= k < |cs| && cs[k] == c;
    BagWithout(cs, k);
    OnceOnly(c, multiset(w.free) + Bag(Without(cs, k)), |table|);
    assert forall i: nat :: i < |c| ==> c[i] in c;
  }

  lemma {:induction false} BagThree(w: Places)
    ensures Bag(w.Chains()) == Bag(w.avail) + Bag(w.held) + Bag(w.used)
  {
    BagJoins(w.avail + w.held, w.used);
    BagJoins(w.avail, w.held);
  }

  /** The same chains, in other places. */
  lemma {:induction false} SameChains(table: Table, w: Places, w': Places)
    requires Partition(table, w) && w'.free == w.free && Bag(w'.Chains()) == Bag(w.Chains())
    requires forall c :: c in w'.Chains() ==> c in w.Chains()
    ensures Partition(table, w')
  {
    hide Linked, Bag;
  }

  lemma {:induction false} FetchKeeps(table: Table, w: Places)
    requires Partition(table, w) && w.avail != []
    ensures Partition(table, Fetched(w))
  {
    hide Linked, Bag;
    BagThree(w);
    BagThree(Fetched(w));
    BagFirst(w.avail);
    BagJoins(w.held, [w.avail[0]]);
    BagOne(w.avail[0]);
    SameChains(table, w, Fetched(w));
  }

  lemma {:induction false} ReturnKeeps(table: Table, w: Places, k: nat)
    requires Partition(table, w) && k < |w.held|
    ensures Partition(table, Returned(w, k))
  {
    hide Linked, Bag;
    BagThree(w);
    BagThree(Returned(w, k));
    BagWithout(w.held, k);
    BagJoins(w.used, [w.held[k]]);
    BagOne(w.held[k]);
    SameChains(table, w, Returned(w, k));
  }

  lemma {:induction false} FreedMoves(w: Places)
    requires w.used != [] && w.used[0] != []
    ensures Freed(w).All() == w.All()
    ensures Bag(w.Chains()) == Bag(Freed(w).Chains()) + multiset{w.used[0][0]}
  {
    hide Bag;
    var c, rest := w.used[0], w.used[1..];
    BagThree(w);
    BagThree(Freed(w));
    BagFirst(w.used);
    BagJoins([c[1..]], rest);
    BagOne(c[1..]);
    assert c == [c[0]] + c[1..];
    assert multiset(Freed(w).free) == multiset{c[0]} + multiset(w.free);
  }

  lemma {:induction false} FreedChains(w: Places)
    requires w.used != [] && w.used[0] != []
    ensures forall c :: c in Freed(w).Chains() ==> c in w.Chains() || (c == w.used[0][1..] && c != [])
  {
  }

  lemma {:induction false} LinkedFront(table: Table, table': Table, free: seq<nat>, d: nat)
    requires Linked(table, free) && d < |table| == |table'| && d !in free
    requires table' == table[d := table[d].(next := if free == [] then None else Some(free[0]))]
    ensures Linked(table', [d] + free)
  {
    var t := [d] + free;
    forall i: nat | i < |t| ensures t[i] < |table'| && LinkAt(table', t, i) {
      if i > 0 {
        assert free[i - 1] < |table| && LinkAt(table, free, i - 1) && t[i] == free[i - 1];
      }
    }
  }

  /** Pushing the head of a chain on the free list. */
  lemma {:induction false} FreedKeeps(table: Table, w: Places)
    requires Partition(table, w) && w.used != [] && w.used[0] != []
    ensures var d := w.used[0][0];
            && d < |table|
            && table[d].next == (if |w.used[0]| == 1 then None else Some(w.used[0][1]))
            && d !in w.free
            && Partition(table[d := table[d].(next := if w.free == [] then None else Some(w.free[0]))], Freed(w))
  {
    hide Linked, Bag, Places.All;
    var c := w.used[0];
    var d := c[0];
    FreedMoves(w);
    FreedChains(w);
    assert c in w.Chains();
    HeadOf(table, c);
    FreedOnce(table, w);
    var table' := table[d := table[d].(next := if w.free == [] then None else Some(w.free[0]))];
    LinkedFront(table, table', w.free, d);
    assert ChainsOk(table, Freed(w).Chains());
    ChainsElsewhere(table, table', Freed(w).Chains());
  }

  lemma {:induction false} HeadOf(table: Table, c: seq<nat>)
    requires Linked(table, c) && c != []
    ensures c[0] < |table| && table[c[0]].next == (if |c| == 1 then None else Some(c[1]))
    ensures Linked(table, c[1..])
  {
    assert LinkAt(table, c, 0);
    LinkedTail(table, c, 1);
  }

  lemma {:induction false} FreedOnce(table: Table, w: Places)
    requires Partition(table, w) && w.used != [] && w.used[0] != []
    ensures w.used[0][0] !in w.free && w.used[0][0] !in Bag(Freed(w).Chains())
  {
    hide Linked, Bag;
    FreedMoves(w);
    var d := w.used[0][0];
    assert w.All()[d] == multiset(w.free)[d] + Bag(w.Chains())[d] <= 1;
  }

  // ---- rings ----

  lemma {:induction false} RingPush(ring: seq<nat>, first: nat, cs: seq<seq<nat>>, c: seq<nat>)
    requires |ring| > 0 && 0x1_0000 % |ring| == 0 && RingShows(ring, first, cs) && |cs| < |ring| && c != []
    ensures RingShows(ring[SlotOf(first + |cs|, |ring|) := c[0]], first, cs + [c])
  {
    hide SlotOf;
    var n, ds := |ring|, cs + [c];
    var ring' := ring[SlotOf(first + |cs|, n) := c[0]];
    SlotsDistinctIff(n);
    forall k: nat | k < |ds| ensures ds[k] != [] && ring'[SlotOf(first + k, n)] == ds[k][0] {
      assert k < |cs| ==> SlotOf(first + k, n) != SlotOf(first + |cs|, n);
    }
  }

  lemma {:induction false} RingPop(ring: seq<nat>, first: nat, cs: seq<seq<nat>>)
    requires |ring| > 0 && RingShows(ring, first, cs) && cs != []
    ensures cs[0] != [] && ring[SlotOf(first, |ring|)] == cs[0][0]
    ensures RingShows(ring, first + 1, cs[1..])
  {
    hide SlotOf;
    assert cs[0] != [] && ring[SlotOf(first + 0, |ring|)] == cs[0][0];
    forall k: nat | k < |cs| - 1 ensures cs[1..][k] != [] && ring[SlotOf(first + 1 + k, |ring|)] == cs[1..][k][0] {
      assert ring[SlotOf(first + (k + 1), |ring|)] == cs[k + 1][0];
    }
  }

  /** A ring through which `count` heads have gone, those of `cs` not taken out yet; both ends are
      known by their 16-bit index. */
  ghost predicate QueueOk(ring: seq<nat>, idx: nat, done: nat, count: nat, cs: seq<seq<nat>>) {
    && 0 < |ring| < 0x1_0000 && 0x1_0000 % |ring| == 0
    && |cs| <= count
    && idx == count % 0x1_0000
    && done == (count - |cs|) % 0x1_0000
    && RingShows(ring, count - |cs|, cs)
  }

  lemma {:induction false} QueuePush(ring: seq<nat>, idx: nat, done: nat, count: nat, cs: seq<seq<nat>>, c: seq<nat>)
    requires QueueOk(ring, idx, done, count, cs) && |cs| < |ring| && c != []
    ensures QueueOk(ring[SlotOf(idx, |ring|) := c[0]], (idx + 1) % 0x1_0000, done, count + 1, cs + [c])
  {
    hide SlotOf, RingShows;
    SlotOfIndex(count, |ring|);
    RingPush(ring, count - |cs|, cs, c);
    NextIndex(count);
  }

  lemma SlotOfIndex(x: nat, n: nat)
    requires n > 0
    ensures SlotOf(x % 0x1_0000, n) == SlotOf(x, n)
  {
  }

  /** The number of waiting heads is the difference of the indices modulo 65536. */
  lemma {:induction false} QueueLength(ring: seq<nat>, idx: nat, done: nat, count: nat, cs: seq<seq<nat>>)
    requires QueueOk(ring, idx, done, count, cs) && |cs| <= |ring|
    ensures (idx - done) % 0x1_0000 == |cs| && (idx != done <==> cs != [])
  {
    hide SlotOf, RingShows;
  }

  lemma {:induction false} QueuePop(ring: seq<nat>, idx: nat, done: nat, count: nat, cs: seq<seq<nat>>)
    requires QueueOk(ring, idx, done, count, cs) && cs != []
    ensures cs[0] != [] && ring[SlotOf(done, |ring|)] == cs[0][0]
    ensures QueueOk(ring, idx, (done + 1) % 0x1_0000, count, cs[1..])
  {
    hide SlotOf, RingShows;
    var x := count - |cs|;
    SlotOfIndex(x, |ring|);
    RingPop(ring, x, cs);
    NextIndex(x);
    assert count - |cs[1..]| == x + 1;
  }

  lemma NextIndex(x: nat)
    ensures (x % 0x1_0000 + 1) % 0x1_0000 == (x + 1) % 0x1_0000
  {
  }

  // ---- associated data ----

  /** The data that is with the device. */
  ghost function Present<T>(data: seq<Option<T>>): multiset<T> {
    if data == [] then multiset{} else
    (match data[0] case None => multiset{} case Some(x) => multiset{x}) + Present(data[1..])
  }

  lemma {:induction false} PresentPut<T>(data: seq<Option<T>>, d: nat, x: T)
    requires d < |data| && data[d] == None
    ensures Present(data[d := Some(x)]) == Present(data) + multiset{x}
  {
    var data' := data[d := Some(x)];
    if d == 0 {
      assert data'[1..] == data[1..];
    } else {
      PresentPut(data[1..], d - 1, x);
      assert data'[1..] == data[1..][d - 1 := Some(x)];
    }
  }

  lemma {:induction false} PresentTake<T>(data: seq<Option<T>>, d: nat)
    requires d < |data| && data[d].Some?
    ensures Present(data) == Present(data[d := None]) + multiset{data[d].value}
  {
    PresentPut(data[d := None], d, data[d].value);
    assert data[d := None][d := data[d]] == data;
  }

  lemma {:induction false} PresentNone<T>(data: seq<Option<T>>)
    requires forall d :: 0 <= d < |data| ==> data[d] == None
    ensures Present(data) == multiset{}
  {
    if data != [] {
      PresentNone(data[1..]);
    }
  }

  /** Data is present exactly on the descriptors that are not free. */
  ghost predicate DataOk<T>(data: seq<Option<T>>, free: seq<nat>) {
    forall d: nat :: d < |data| ==> (data[d].Some? <==> d !in free)
  }

  function DataOf<T>(bs: seq<Buffer<T>>): seq<T> {
    seq(|bs|, i requires 0 <= i < |bs| => bs[i].data)
  }

  /** The first `k` buffers are in the first `k` descriptors of `free`, and nothing else has changed. */
  ghost predicate Filled<T>(t0: Table, d0: seq<Option<T>>, table: Table, data: seq<Option<T>>, free: seq<nat>,
      bs: seq<Buffer<T>>, k: nat) {
    && k <= |bs| && k <= |free| && |t0| == |d0| == |table| == |data|
    && (forall i: nat :: i < |free| ==> free[i] < |t0|)
    && (forall i: nat :: i < k ==> table[free[i]] == t0[free[i]].Refer(bs[i]) && data[free[i]] == Some(bs[i].data))
    && (forall d: nat :: d < |t0| && d !in free[..k] ==> table[d] == t0[d] && data[d] == d0[d])
    && Present(data) == Present(d0) + multiset(DataOf(bs[..k]))
  }

  lemma {:induction false} FillStep<T>(t0: Table, d0: seq<Option<T>>, table: Table, data: seq<Option<T>>,
      free: seq<nat>, bs: seq<Buffer<T>>, k: nat)
    requires Filled(t0, d0, table, data, free, bs, k) && k < |bs| && k < |free| && Distinct(free)
    requires Present(data[free[k] := Some(bs[k].data)]) == Present(data) + multiset{bs[k].data}
    ensures Filled(t0, d0, table[free[k] := table[free[k]].Refer(bs[k])], data[free[k] := Some(bs[k].data)], free, bs, k + 1)
  {
    hide Present, DataOf, Descriptor.Refer;
    var f := free[k];
    assert forall i: nat :: i < k ==> free[i] != f;
    hide Distinct;
    assert free[..k + 1] == free[..k] + [f];
    assert f !in free[..k];
    DataOfMore(bs, k);
  }

  lemma {:induction false} DataOfMore<T>(bs: seq<Buffer<T>>, k: nat)
    requires k < |bs|
    ensures multiset(DataOf(bs[..k + 1])) == multiset(DataOf(bs[..k])) + multiset{bs[k].data}
  {
    assert DataOf(bs[..k + 1]) == DataOf(bs[..k]) + [bs[k].data];
  }

  lemma {:induction false} FillStart<T>(t0: Table, d0: seq<Option<T>>, free: seq<nat>, bs: seq<Buffer<T>>)
    requires |t0| == |d0| && forall i: nat :: i < |free| ==> free[i] < |t0|
    ensures Filled(t0, d0, t0, d0, free, bs, 0)
  {
    hide Present;
  }

  /** The descriptors of `c` refer to the buffers and carry their data. */
  ghost predicate Carries<T>(table: Table, data: seq<Option<T>>, c: seq<nat>, bs: seq<Buffer<T>>) {
    && |c| == |bs| && |table| == |data|
    && forall i: nat :: i < |c| ==>
         && c[i] < |table| && data[c[i]] == Some(bs[i].data)
         && table[c[i]].addr == bs[i].addr && table[c[i]].len == bs[i].len % 0x1_0000_0000 && table[c[i]].write == bs[i].write
  }

  /** Filling does not change a link. */
  lemma {:induction false} FilledLinks<T>(t0: Table, d0: seq<Option<T>>, table: Table, data: seq<Option<T>>,
      free: seq<nat>, bs: seq<Buffer<T>>, k: nat)
    requires Filled(t0, d0, table, data, free, bs, k)
    ensures forall d: nat :: d < |t0| ==> table[d].next == t0[d].next
  {
    hide Present;
    forall d: nat | d < |t0| ensures table[d].next == t0[d].next {
      if d in free[..k] {
        var i :| 0 <= i < k && free[i] == d;
      }
    }
  }

  lemma {:induction false} FilledNone<T>(t0: Table, d0: seq<Option<T>>, table: Table, data: seq<Option<T>>,
      free: seq<nat>, bs: seq<Buffer<T>>)
    requires Filled(t0, d0, table, data, free, bs, 0)
    ensures table == t0 && data == d0
  {
    hide Present;
  }

  /** After the last descriptor is unlinked. */
  lemma {:induction false} Sealed<T>(t0: Table, d0: seq<Option<T>>, table: Table, data: seq<Option<T>>,
      free: seq<nat>, bs: seq<Buffer<T>>)
    requires Filled(t0, d0, table, data, free, bs, |bs|) && bs != []
    ensures var l := free[|bs| - 1];
            && l < |table|
            && var table' := table[l := table[l].(next := None)];
               && |table'| == |t0| == |data|
               && Carries(table', data, free[..|bs|], bs)
               && (forall d: nat :: d < |t0| ==> table'[d].next == if d == l then None else t0[d].next)
               && (forall d: nat :: d < |t0| && d !in free[..|bs|] ==> table'[d] == t0[d] && data[d] == d0[d])
    ensures Present(data) == Present(d0) + multiset(DataOf(bs))
  {
    hide Present;
    FilledLinks(t0, d0, table, data, free, bs, |bs|);
    assert bs[..|bs|] == bs;
    assert free[|bs| - 1] in free[..|bs|];
  }

  lemma {:induction false} FilledData<T>(t0: Table, d0: seq<Option<T>>, table: Table, data: seq<Option<T>>,
      free: seq<nat>, bs: seq<Buffer<T>>, k: nat)
    requires Filled(t0, d0, table, data, free, bs, k) && DataOk(d0, free) && Distinct(free)
    ensures DataOk(data, free[k..]) && (k < |free| ==> data[free[k]] == None)
  {
    hide Present;
    assert forall i, j :: 0 <= i < k <= j < |free| ==> free[i] != free[j];
    hide Distinct;
    forall d: nat | d < |data| ensures data[d].Some? <==> d !in free[k..] {
      if d in free[..k] {
        var i :| 0 <= i < k && free[i] == d;
      } else {
        assert d in free <==> d in free[k..] by {
          assert free == free[..k] + free[k..];
        }
      }
    }
    assert k < |free| ==> free[k] in free[k..];
  }

  lemma {:induction false} FreeData<T>(data: seq<Option<T>>, free: seq<nat>, d: nat)
    requires DataOk(data, free) && d < |data| && d !in free
    ensures data[d].Some? && DataOk(data[d := None], [d] + free)
  {
  }

  /** The data of the descriptors `c`, in order, is taken out; other data is left. */
  ghost predicate Taken<T>(d0: seq<Option<T>>, data: seq<Option<T>>, c: seq<nat>, xs: seq<T>) {
    && |data| == |d0| && |xs| == |c|
    && (forall i: nat :: i < |c| ==> c[i] < |d0| && d0[c[i]] == Some(xs[i]))
    && (forall d: nat :: d < |d0| ==> data[d] == if d in c then None else d0[d])
  }

  lemma {:induction false} TakenMore<T>(d0: seq<Option<T>>, d1: seq<Option<T>>, d2: seq<Option<T>>, c: seq<nat>,
      xs: seq<T>, b: seq<nat>, ys: seq<T>)
    requires Taken(d0, d1, c, xs) && Taken(d1, d2, b, ys)
    ensures Taken(d0, d2, c + b, xs + ys)
  {
    forall i: nat | i < |c + b| ensures (c + b)[i] < |d0| && d0[(c + b)[i]] == Some((xs + ys)[i]) {
      if i >= |c| {
        assert b[i - |c|] < |d1| && d1[b[i - |c|]] == Some(ys[i - |c|]);
      }
    }
  }

  /** The descriptors of some chains, in order. */
  ghost function Flat(cs: seq<seq<nat>>): seq<nat> {
    if cs == [] then [] else Flat(cs[..|cs| - 1]) + cs[|cs| - 1]
  }

  lemma {:induction false} FlatMore(cs: seq<seq<nat>>, j: nat)
    requires j < |cs|
    ensures Flat(cs[..j + 1]) == Flat(cs[..j]) + cs[j]
  {
    assert cs[..j + 1][..j] == cs[..j];
  }

  lemma {:induction false} TakenNone<T>(d0: seq<Option<T>>, c: seq<nat>)
    ensures Taken(d0, d0, c[..0], [])
  {
  }

  lemma {:induction false} TakenNext<T>(d0: seq<Option<T>>, data: seq<Option<T>>, c: seq<nat>, xs: seq<T>)
    requires |xs| < |c| && Taken(d0, data, c[..|xs|], xs) && Distinct(c) && c[|xs|] < |d0|
    ensures |data| == |d0|
    ensures forall x :: data[c[|xs|]] == Some(x) ==> Taken(d0, data[c[|xs|] := None], c[..|xs| + 1], xs + [x])
  {
    var k := |xs|;
    assert forall i: nat :: i < k ==> c[i] != c[k];
    hide Distinct;
    assert c[..k + 1] == c[..k] + [c[k]];
    assert c[k] !in c[..k];
  }

  lemma {:induction false} FreedAll(w: Places)
    requires w.used != []
    ensures var v := FreedUpTo(w, |w.used[0]|);
            v.used == w.used[1..] && v.avail == w.avail && v.held == w.held && v.availCount == w.availCount && v.usedCount == w.usedCount
  {
  }

  lemma {:induction false} UpTo(n: nat)
    ensures multiset(seq(n, i => i)) == Everything(n)
  {
    if n > 0 {
      UpTo(n - 1);
      assert seq(n, i => i) == seq(n - 1, i => i) + [n - 1];
    }
  }

  lemma {:induction false} AllFree(table: Table)
    requires forall d: nat :: d < |table| ==> table[d].next == if d + 1 < |table| then Some(d + 1) else None
    ensures Partition(table, Places(seq(|table|, i => i), [], [], [], 0, 0))
  {
    hide Everything;
    UpTo(|table|);
    var free := seq(|table|, i => i);
    forall i: nat | i < |free| ensures free[i] < |table| && LinkAt(table, free, i) {
    }
    var none: seq<seq<nat>> := [];
    assert none + none + none == none;
  }

  lemma {:induction false} NoData<T>(data: seq<Option<T>>)
    requires forall d :: 0 <= d < |data| ==> data[d] == None
    ensures DataOk(data, seq(|data|, i => i)) && Present(data) == multiset{}
  {
    PresentNone(data);
    var free := seq(|data|, i => i);
    forall d: nat | d < |data| ensures d in free {
      assert free[d] == d;
    }
  }

  lemma {:induction false} QueueEmpty(ring: seq<nat>)
    requires 0 < |ring| < 0x1_0000 && 0x1_0000 % |ring| == 0
    ensures QueueOk(ring, 0, 0, 0, [])
  {
  }

  class VirtQueue<T(!new,==)> {
    const n: nat
    var table: Table
    var availRing: seq<nat>
    var availIdx: nat
    var usedRing: seq<nat>
    var usedIdx: nat
    var lastUsed: nat
    var firstFree: nat
    var numFree: nat
    var data: seq<Option<T>>

    var deviceIdx: nat                  // of the device: how far it has read the available ring
    ghost var w: Places
    ghost var given: multiset<T>        // all data ever passed to Transfer
    ghost var delivered: multiset<T>    // all data ever passed to the handler of Collect

    ghost predicate Tables()
      reads this`table, this`availRing, this`usedRing, this`data, this`numFree, this`firstFree, this`w, this`given,
          this`delivered
    {
      && 0 < n < 0x1_0000 && 0x1_0000 % n == 0
      && |table| == |availRing| == |usedRing| == |data| == n
      && Partition(table, w)
      && numFree == |w.free| && (w.free != [] ==> firstFree == w.free[0])
      && DataOk(data, w.free)
      && given == delivered + Present(data)
    }

    ghost predicate Valid()
      reads this
    {
      && Tables()
      && QueueOk(availRing, availIdx, deviceIdx, w.availCount, w.avail)
      && QueueOk(usedRing, usedIdx, lastUsed, w.usedCount, w.used)
    }

    /** The initial descriptor chain. */
    constructor (n: nat)
      requires 0 < n < 0x1_0000 && 0x1_0000 % n == 0
      ensures Valid() && this.n == n && w == Places(seq(n, i => i), [], [], [], 0, 0)
      ensures given == multiset{} && delivered == multiset{}
    {
      this.n := n;
      table := seq(n, _ => Descriptor(0, 0, false, None));
      availRing, usedRing := seq(n, _ => 0), seq(n, _ => 0);
      availIdx, usedIdx, lastUsed, deviceIdx := 0, 0, 0, 0;
      firstFree, numFree := 0, n;
      data := seq(n, _ => None);
      w := Places(seq(n, i => i), [], [], [], 0, 0);
      given, delivered := multiset{}, multiset{};
      new;
      hide Partition, Present, Everything, DataOk, QueueOk;
      NoData(data);
      QueueEmpty(availRing);
      QueueEmpty(usedRing);
      LinkAll();
      AllFree(table);
    }

    method LinkAll()
      requires |table| == n > 0 && forall d: nat :: d < n ==> table[d].next == None
      modifies this`table
      ensures |table| == n && forall d: nat :: d < n ==> table[d].next == if d + 1 < n then Some(d + 1) else None
    {
      for i := 0 to n - 1
        invariant |table| == n
        invariant forall d: nat :: d < n ==> table[d].next == if d < i then Some(d + 1) else None
      {
        table := table[i := table[i].(next := Some(i + 1))];
      }
    }

    /** No more chains than descriptors. */
    lemma Lengths()
      requires Tables()
      ensures |w.free| + |w.avail| + |w.held| + |w.used| <= n == |availRing| == |usedRing|
    {
      hide Linked, Bag, Present, DataOk, Everything;
      FreeOnce(table, w);
      BagSize(w.Chains());
    }

    /** Each descriptor is either free or in exactly one chain, and carries data exactly in a chain. */
    lemma FreeOrInFlight(d: nat)
      requires Tables() && d < n
      ensures multiset(w.free)[d] + Bag(w.Chains())[d] == 1
      ensures data[d].Some? <==> d in Bag(w.Chains())
    {
      hide Linked, Present, Bag, ChainsOk;
      assert w.All()[d] == 1;
    }

    /** When all descriptors are free, everything given has been delivered. */
    lemma AllDelivered()
      requires Tables() && numFree == n
      ensures given == delivered
    {
      hide Linked, Present, Bag, ChainsOk;
      FreeOnce(table, w);
      forall d: nat | d < n ensures data[d] == None {
        assert w.All()[d] == 1;
      }
      PresentNone(data);
    }

    /** The device takes the next available chain. */
    method Fetch() returns (head: nat)
      requires Valid() && availIdx != deviceIdx
      modifies this`deviceIdx, this`w
      ensures Valid() && old(w).avail != [] && w == Fetched(old(w)) && old(w).avail[0] != [] && head == old(w).avail[0][0]
    {
      hide SlotOf, Linked, Bag, DataOk, Present, Partition, QueueOk;
      Lengths();
      QueueLength(availRing, availIdx, deviceIdx, w.availCount, w.avail);
      QueuePop(availRing, availIdx, deviceIdx, w.availCount, w.avail);
      head := availRing[SlotOf(deviceIdx, n)];
      FetchKeeps(table, w);
      deviceIdx := (deviceIdx + 1) % 0x1_0000;
      w := Fetched(w);
    }

    /** The device gives back any chain it has worked on, by its head. */
    method GiveBack(head: nat, ghost k: nat)
      requires Valid() && k < |w.held| && [head] <= w.held[k]
      modifies this`usedRing, this`usedIdx, this`w
      ensures Valid() && w == Returned(old(w), k)
    {
      hide SlotOf, Linked, Bag, DataOk, Present, Partition, QueueOk;
      Lengths();
      ReturnKeeps(table, w, k);
      QueuePush(usedRing, usedIdx, lastUsed, w.usedCount, w.used, w.held[k]);
      usedRing := usedRing[SlotOf(usedIdx, n) := head];
      usedIdx := (usedIdx + 1) % 0x1_0000;
      w := Returned(w, k);
    }
  
    /** Puts one buffer into the first free descriptor. */
    method Refer(b: Buffer<T>, ghost free: seq<nat>, ghost k: nat)
      requires |table| == |data| && Linked(table, free) && Distinct(free) && k < |free|
      requires numFree == |free| - k && firstFree == free[k] && data[firstFree] == None
      modifies this`table, this`data, this`firstFree, this`numFree
      ensures |table| == |data| == old(|data|) && Linked(table, free)
      ensures numFree == |free| - k - 1 && (numFree > 0 ==> firstFree == free[k + 1])
      ensures table == old(table)[free[k] := old(table)[free[k]].Refer(b)]
      ensures data == old(data)[free[k] := Some(b.data)]
      ensures Present(data) == old(Present(data)) + multiset{b.data}
    {
      hide Present, Distinct;
      var i := firstFree;
      assert free[k] < |table| && LinkAt(table, free, k);
      PresentPut(data, i, b.data);
      table := table[i := table[i].Refer(b)];
      data := data[i := Some(b.data)];
      LinkedElsewhere(old(table), table, free);
      if numFree == 1 {
        assert table[i].next == None;
      } else {
        firstFree := table[i].next.value;
      }
      numFree := numFree - 1;
    }
  
    /** Puts a buffer into a free descriptor each. */
    method Fill(bs: seq<Buffer<T>>) returns (last: Option<nat>)
      requires Tables() && |bs| <= numFree
      modifies this`table, this`data, this`firstFree, this`numFree
      ensures Filled(old(table), old(data), table, data, w.free, bs, |bs|)
      ensures numFree == |w.free| - |bs| && (numFree > 0 ==> firstFree == w.free[|bs|])
      ensures last == if bs == [] then None else Some(w.free[|bs| - 1])
    {
      hide Filled, DataOk, Present, Everything, Bag, Distinct, ChainsOk;
      FreeOnce(table, w);
      ghost var free, t0, d0 := w.free, table, data;
      last := None;
      FillStart(t0, d0, free, bs);
      for k := 0 to |bs|
        invariant |table| == |data| == |t0| && Linked(table, free)
        invariant Filled(t0, d0, table, data, free, bs, k)
        invariant numFree == |free| - k && (numFree > 0 ==> firstFree == free[k])
        invariant last == if k == 0 then None else Some(free[k - 1])
      {
        FilledData(t0, d0, table, data, free, bs, k);
        last := Some(firstFree);
        PresentPut(data, firstFree, bs[k].data);
        FillStep(t0, d0, table, data, free, bs, k);
        Refer(bs[k], free, k);
      }
    }
  
    /** Unlinks the filled descriptors from the free list and enqueues them. */
    method Offer(first: nat, last: nat, ghost t0: Table, ghost d0: seq<Option<T>>, ghost bs: seq<Buffer<T>>)
      requires 0 < n < 0x1_0000 && 0x1_0000 % n == 0 && |t0| == |availRing| == |usedRing| == n
      requires Filled(t0, d0, table, data, w.free, bs, |bs|) && bs != [] && |bs| <= |w.free| && |w.avail| < n
      requires Partition(t0, w) && DataOk(d0, w.free) && Distinct(w.free) && given == delivered + Present(d0)
      requires first == w.free[0] && last == w.free[|bs| - 1]
      requires numFree == |w.free| - |bs| && (numFree > 0 ==> firstFree == w.free[|bs|])
      requires QueueOk(availRing, availIdx, deviceIdx, w.availCount, w.avail)
      modifies this`table, this`availRing, this`availIdx, this`w, this`given
      ensures Tables() && QueueOk(availRing, availIdx, deviceIdx, w.availCount, w.avail) && w == Transferred(old(w), |bs|)
      ensures given == old(given) + multiset(DataOf(bs))
      ensures Carries(table, data, w.avail[|w.avail| - 1], bs)
      ensures forall d: nat :: d < n && d !in w.avail[|w.avail| - 1] ==> table[d] == t0[d] && data[d] == d0[d]
    {
      hide Filled, DataOk, Present, Everything, Bag, Distinct, ChainsOk, Linked, SlotOf, QueueOk, Carries, Partition,
        DataOf;
      ghost var free := w.free;
      FilledData(t0, d0, table, data, free, bs, |bs|);
      Sealed(t0, d0, table, data, free, bs);
      table := table[last := table[last].(next := None)];
      TransferKeeps(t0, table, w, |bs|);
      QueuePush(availRing, availIdx, deviceIdx, w.availCount, w.avail, free[..|bs|]);
      availRing := availRing[SlotOf(availIdx, n) := first];
      availIdx := (availIdx + 1) % 0x1_0000;
      w := Transferred(w, |bs|);
      given := given + multiset(DataOf(bs));
    }

    /** VirtQueue::transfer: refused exactly for want of descriptors; otherwise one more available
        chain, made of the first free descriptors. */
    method Transfer(bs: seq<Buffer<T>>) returns (ok: bool)
      requires Valid()
      modifies this`table, this`data, this`firstFree, this`numFree, this`availRing, this`availIdx, this`w, this`given
      ensures Valid() && (ok <==> |bs| <= old(numFree))
      ensures !ok || bs == [] ==> w == old(w) && table == old(table) && data == old(data) && given == old(given)
      ensures ok && bs != [] ==>
                && |bs| <= |old(w).free| && w == Transferred(old(w), |bs|)
                && given == old(given) + multiset(DataOf(bs))
                && Carries(table, data, w.avail[|w.avail| - 1], bs)
                && forall d: nat :: d < n && d !in w.avail[|w.avail| - 1] ==> table[d] == old(table)[d] && data[d] == old(data)[d]
    {
      hide Filled, DataOk, Present, Everything, Bag, Distinct, ChainsOk, Linked, SlotOf, QueueOk, Carries, Partition,
        DataOf;
      if numFree < |bs| {
        return false;
      }
      Lengths();
      FreeOnce(table, w);
      ghost var free := w.free;
      var first := firstFree;
      var last := Fill(bs);
      if last.None? {
        FilledData(old(table), old(data), table, data, free, bs, |bs|);
        FilledNone(old(table), old(data), table, data, free, bs);
      } else {
        Offer(first, last.value, old(table), old(data), bs);
      }
      return true;
    }

    /** Moves the first descriptor of a chain to the free list and takes its data. */
    method Free(i: nat) returns (chain: Option<nat>, x: T)
      requires Tables() && w.used != [] && [i] <= w.used[0]
      modifies this`table, this`firstFree, this`numFree, this`data, this`w, this`delivered
      ensures Tables() && w == Freed(old(w))
      ensures i < n && old(data)[i] == Some(x) && data == old(data)[i := None]
      ensures delivered == old(delivered) + multiset{x}
      ensures chain == if |old(w).used[0]| == 1 then None else Some(old(w).used[0][1])
    {
      hide DataOk, Present, Everything, Bag, Distinct, ChainsOk, Linked, Partition;
      FreedKeeps(table, w);
      FreeData(data, w.free, i);
      var prev := if numFree == 0 then None else Some(firstFree);
      firstFree := i;
      numFree := numFree + 1;
      chain := table[i].next;
      table := table[i := table[i].(next := prev)];
      x := data[i].value;
      PresentTake(data, i);
      data := data[i := None];
      delivered := delivered + multiset{x};
      w := Freed(w);
    }
  
    /** The inner loop of VirtQueue::collect: frees the chain that begins with `head`. */
    method FreeChain(head: nat) returns (xs: seq<T>)
      requires Tables() && w.used != [] && [head] <= w.used[0]
      modifies this`table, this`firstFree, this`numFree, this`data, this`w, this`delivered
      ensures Tables() && w == FreedUpTo(old(w), |old(w).used[0]|)
      ensures Taken(old(data), data, old(w).used[0], xs)
      ensures delivered == old(delivered) + multiset(xs)
    {
      hide DataOk, Present, Everything, Bag, Distinct, ChainsOk, Linked, Partition, FreedUpTo, Freed, Taken;
      ghost var w0, c, d0 := w, w.used[0], data;
      ChainOnce(table, w, c);
      FreedNone(w0);
      TakenNone(d0, c);
      var i := head;
      xs := [];
      while true
        invariant Tables() && |xs| < |c| && i == c[|xs|]
        invariant w == FreedUpTo(w0, |xs|)
        invariant Taken(d0, data, c[..|xs|], xs)
        invariant delivered == old(delivered) + multiset(xs)
        decreases |c| - |xs|
      {
        FreedNext(w0, |xs|);
        TakenNext(d0, data, c, xs);
        var chain, x := Free(i);
        xs := xs + [x];
        match chain {
          case Some(next) => i := next;
          case None => break;
        }
      }
      assert c[..|c|] == c;
    }

    /** One round of VirtQueue::collect: takes back one chain and hands its data over, in order. */
    method CollectOne() returns (xs: seq<T>)
      requires Valid() && lastUsed != usedIdx
      modifies this`table, this`firstFree, this`numFree, this`data, this`w, this`delivered, this`lastUsed
      ensures Valid() && old(w).used != [] && w == FreedUpTo(old(w), |old(w).used[0]|)
      ensures Taken(old(data), data, old(w).used[0], xs)
      ensures delivered == old(delivered) + multiset(xs)
    {
      hide Tables, QueueOk, SlotOf, FreedUpTo, Taken;
      Lengths();
      QueueLength(usedRing, usedIdx, lastUsed, w.usedCount, w.used);
      QueuePop(usedRing, usedIdx, lastUsed, w.usedCount, w.used);
      FreedAll(w);
      var i := usedRing[SlotOf(lastUsed, n)];
      lastUsed := (lastUsed + 1) % 0x1_0000;
      xs := FreeChain(i);
    }

    /** VirtQueue::collect, with no step of the device in between: takes back all chains given back, in
        order, and hands over the data of their descriptors, in order. */
    method Collect() returns (xs: seq<T>)
      requires Valid()
      modifies this`table, this`firstFree, this`numFree, this`data, this`w, this`delivered, this`lastUsed
      ensures Valid() && w.used == [] && lastUsed == usedIdx && w.avail == old(w).avail && w.held == old(w).held
      ensures Taken(old(data), data, Flat(old(w).used), xs)
      ensures delivered == old(delivered) + multiset(xs)
    {
      hide Tables, QueueOk, FreedUpTo, Taken, Flat;
      xs := [];
      ghost var used, d0, j := w.used, data, 0;
      Lengths();
      QueueLength(usedRing, usedIdx, lastUsed, w.usedCount, w.used);
      NothingTaken(d0, used);
      while lastUsed != usedIdx
        invariant Valid() && w.avail == old(w).avail && w.held == old(w).held
        invariant j <= |used| && w.used == used[j..] && Taken(d0, data, Flat(used[..j]), xs)
        invariant delivered == old(delivered) + multiset(xs)
        decreases |used| - j
      {
        Lengths();
        QueueLength(usedRing, usedIdx, lastUsed, w.usedCount, w.used);
        FreedAll(w);
        ghost var d1 := data;
        var ys := CollectOne();
        TakenMore(d0, d1, data, Flat(used[..j]), xs, used[j], ys);
        FlatMore(used, j);
        xs := xs + ys;
        j := j + 1;
      }
      Lengths();
      QueueLength(usedRing, usedIdx, lastUsed, w.usedCount, w.used);
      assert used[..|used|] == used;
    }
  }

  lemma NothingTaken<T>(d: seq<Option<T>>, cs: seq<seq<nat>>)
    ensures Taken(d, d, Flat(cs[..0]), [])
  {
  }
}
