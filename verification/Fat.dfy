/** Cluster chains in the file allocation table, fs/fat/low_level.rs. */
module Chains {
  import opened Bytes
  import opened FatEntries

  type Fat = seq<FatEntry>

  predicate IsCluster(fat: Fat, c: nat) {
    2 <= c < |fat|
  }

  /** Chained entries point at clusters of the volume. */
  ghost predicate InRange(fat: Fat) {
    forall c: nat :: IsCluster(fat, c) && fat[c].UsedChained? ==> IsCluster(fat, fat[c].cluster)
  }

  predicate Used(e: FatEntry) {
    e.UsedChained? || e.UsedEoc?
  }

  /** `cs` is a chain: every cluster links to the next one and the last ends it. */
  ghost predicate IsChain(fat: Fat, cs: seq<nat>) {
    && cs != []
    && (forall i :: 0 <= i < |cs| ==> IsCluster(fat, cs[i]))
    && (forall i {:trigger fat[cs[i]]} :: 0 <= i < |cs| - 1 ==> fat[cs[i]] == UsedChained(cs[i + 1]))
    && fat[cs[|cs| - 1]] == UsedEoc
  }

  /** `p` follows links of the table. */
  ghost predicate IsPath(fat: Fat, p: seq<nat>) {
    && p != []
    && (forall i :: 0 <= i < |p| ==> IsCluster(fat, p[i]))
    && (forall i {:trigger fat[p[i]]} :: 0 <= i < |p| - 1 ==> fat[p[i]] == UsedChained(p[i + 1]))
  }

  /** A chain, or what a cut leaves of one: a path whose last cluster is marked as end of chain or unused. */
  ghost predicate IsClosed(fat: Fat, cs: seq<nat>) {
    IsPath(fat, cs) && (fat[cs[|cs| - 1]].UsedEoc? || fat[cs[|cs| - 1]].Unused?)
  }

  lemma ChainIsClosed(fat: Fat, cs: seq<nat>)
    requires IsChain(fat, cs)
    ensures IsClosed(fat, cs)
  {
  }

  ghost predicate NoDuplicates(cs: seq<nat>) {
    forall i, j :: 0 <= i < j < |cs| ==> cs[i] != cs[j]
  }

  /** A chain that ends visits no cluster twice, also after a cut. */
  lemma {:induction false} ChainsAreAcyclic(fat: Fat, cs: seq<nat>)
    requires IsClosed(fat, cs)
    ensures NoDuplicates(cs)
  {
    forall i, j | 0 <= i < j < |cs| ensures cs[i] != cs[j] {
      DistinctClusters(fat, cs, i, j);
    }
  }

  lemma {:induction false} DistinctClusters(fat: Fat, cs: seq<nat>, i: nat, j: nat)
    requires IsClosed(fat, cs) && i < j < |cs|
    ensures cs[i] != cs[j]
    decreases |cs| - j
  {
    assert fat[cs[i]] == UsedChained(cs[i + 1]);
    if j < |cs| - 1 {
      assert fat[cs[j]] == UsedChained(cs[j + 1]);
      DistinctClusters(fat, cs, i + 1, j + 1);
    }
  }

  // ---- allocation ----

  /** The first unused entry from `n` on, or the end of the table. */
  function FirstUnused(fat: Fat, n: nat): (c: nat)
    requires n <= |fat|
    ensures n <= c <= |fat|
    ensures c < |fat| ==> fat[c].Unused?
    ensures forall k :: n <= k < c ==> !fat[k].Unused?
    decreases |fat| - n
  {
    if n == |fat| || fat[n].Unused? then n else FirstUnused(fat, n + 1)
  }

  /** BufferedFat::allocate: the table after it, with the cluster taken. */
  function Allocated(fat: Fat): Option<(Fat, nat)>
    requires |fat| >= 2
  {
    var c := FirstUnused(fat, 2);
    if c < |fat| then Some((fat[c := UsedEoc], c)) else None
  }

  ghost function UnusedClusters(fat: Fat): set<nat> {
    set c | 2 <= c < |fat| && fat[c].Unused?
  }

  /** How many clusters can be allocated. */
  ghost function FreeCount(fat: Fat): nat {
    |UnusedClusters(fat)|
  }

  lemma {:induction false} TakingDecreases(fat: Fat, c: nat, e: FatEntry)
    requires IsCluster(fat, c) && fat[c].Unused? && !e.Unused?
    ensures FreeCount(fat[c := e]) == FreeCount(fat) - 1
  {
    assert c in UnusedClusters(fat);
    assert UnusedClusters(fat[c := e]) == UnusedClusters(fat) - {c};
  }

  lemma {:induction false} LinkingKeeps(fat: Fat, c: nat, e: FatEntry)
    requires IsCluster(fat, c) && !fat[c].Unused? && !e.Unused?
    ensures FreeCount(fat[c := e]) == FreeCount(fat)
  {
    assert UnusedClusters(fat[c := e]) == UnusedClusters(fat);
  }

  /** Allocation fails exactly when no cluster is free, and otherwise takes one. */
  lemma {:induction false} AllocateCounts(fat: Fat)
    requires |fat| >= 2
    ensures Allocated(fat) == None <==> FreeCount(fat) == 0
    ensures Allocated(fat).Some? ==> FreeCount(Allocated(fat).value.0) == FreeCount(fat) - 1
  {
    var c := FirstUnused(fat, 2);
    if c < |fat| {
      TakingDecreases(fat, c, UsedEoc);
    } else {
      assert UnusedClusters(fat) == {};
    }
  }

  // ---- release ----

  ghost function UsedClusters(fat: Fat): set<nat> {
    set c | 0 <= c < |fat| && Used(fat[c])
  }

  lemma {:induction false} FreeingDecreases(fat: Fat, c: nat)
    requires c < |fat| && Used(fat[c])
    ensures UsedClusters(fat[c := Unused]) == UsedClusters(fat) - {c}
    ensures |UsedClusters(fat[c := Unused])| < |UsedClusters(fat)|
  {
    assert c in UsedClusters(fat);
  }

  /** BufferedFat::release: frees along the links until an entry that is not in use. It ends even on
      a cyclic table, since every round frees a used entry. */
  ghost function Released(fat: Fat, c: nat): (fat': Fat)
    requires InRange(fat) && IsCluster(fat, c)
    ensures |fat'| == |fat|
    decreases |UsedClusters(fat)|
  {
    match fat[c]
    case UsedChained(n) => FreeingDecreases(fat, c); Released(fat[c := Unused], n)
    case UsedEoc => fat[c := Unused]
    case _ => fat
  }

  /** `k` is in use and found by following links from `c`. */
  ghost predicate Reaches(fat: Fat, c: nat, k: nat) {
    IsCluster(fat, k) && Used(fat[k]) && exists p :: IsPath(fat, p) && p[0] == c && p[|p| - 1] == k
  }

  /** Release frees exactly the used clusters that the links reach, on any table with links in range. */
  lemma {:induction false} ReleaseFreesReachable(fat: Fat, c: nat, k: nat)
    requires InRange(fat) && IsCluster(fat, c) && k < |fat|
    ensures Released(fat, c)[k] == if Reaches(fat, c, k) then Unused else fat[k]
    decreases |UsedClusters(fat)|
  {
    if fat[c].UsedChained? {
      var n, fat1 := fat[c].cluster, fat[c := Unused];
      FreeingDecreases(fat, c);
      ReleaseFreesReachable(fat1, n, k);
      ReachesStep(fat, c, k);
    } else if IsPath(fat, [c]) {
      ReachesOnlyItself(fat, c, k);
    }
  }

  lemma {:induction false} ReachesOnlyItself(fat: Fat, c: nat, k: nat)
    requires IsCluster(fat, c) && !fat[c].UsedChained?
    ensures Reaches(fat, c, k) <==> k == c && Used(fat[c])
  {
    assert IsPath(fat, [c]) && [c][|[c]| - 1] == c;
    if Reaches(fat, c, k) {
      var p :| IsPath(fat, p) && p[0] == c && p[|p| - 1] == k;
      PathStarts(fat, p);
    }
  }

  lemma {:induction false} PathStarts(fat: Fat, p: seq<nat>)
    requires IsPath(fat, p)
    ensures |p| == 1 || fat[p[0]].UsedChained?
  {
  }

  /** What a chained cluster reaches is itself and what its successor reaches without it. */
  lemma {:induction false} ReachesStep(fat: Fat, c: nat, k: nat)
    requires InRange(fat) && IsCluster(fat, c) && fat[c].UsedChained?
    ensures Reaches(fat, c, k) <==> k == c || Reaches(fat[c := Unused], fat[c].cluster, k)
  {
    var n, fat1 := fat[c].cluster, fat[c := Unused];
    assert IsPath(fat, [c]) && [c][|[c]| - 1] == c;
    if Reaches(fat, c, k) && k != c {
      var p :| IsPath(fat, p) && p[0] == c && p[|p| - 1] == k;
      var q := AvoidingPath(fat, p, c);
      assert fat1[k] == fat[k];
    }
    if Reaches(fat1, n, k) {
      var q :| IsPath(fat1, q) && q[0] == n && q[|q| - 1] == k;
      PathFrom(fat, c, q);
      var p := [c] + q;
      assert IsPath(fat, p) && p[|p| - 1] == k;
    }
  }

  lemma {:induction false} PathFrom(fat: Fat, c: nat, q: seq<nat>)
    requires IsCluster(fat, c) && IsPath(fat[c := Unused], q) && fat[c] == UsedChained(q[0]) && Used(fat[c := Unused][q[|q| - 1]])
    ensures IsPath(fat, [c] + q) && q[|q| - 1] != c && fat[q[|q| - 1]] == fat[c := Unused][q[|q| - 1]]
  {
    var fat1, p := fat[c := Unused], [c] + q;
    forall i | 0 <= i < |p| ensures IsCluster(fat, p[i]) {
      assert i > 0 ==> p[i] == q[i - 1] && IsCluster(fat1, q[i - 1]);
    }
    forall i | 0 <= i < |p| - 1 ensures fat[p[i]] == UsedChained(p[i + 1]) {
      if i > 0 {
        assert p[i] == q[i - 1] && fat1[q[i - 1]] == UsedChained(q[i]) && p[i + 1] == q[i];
      }
    }
  }

  /** A path from `c` to another cluster gives one from the successor of `c` that avoids `c`. */
  lemma {:induction false} AvoidingPath(fat: Fat, p: seq<nat>, c: nat) returns (q: seq<nat>)
    requires IsPath(fat, p) && p[0] == c && p[|p| - 1] != c
    ensures fat[c].UsedChained? && IsPath(fat[c := Unused], q) && q[0] == fat[c].cluster && q[|q| - 1] == p[|p| - 1]
    decreases |p|
  {
    assert |p| > 1;
    q := p[1..];
    if j :| 0 <= j < |q| && q[j] == c {
      q := AvoidingPath(fat, q[j..], c);
    }
  }

  /** Releasing a chain frees exactly its clusters. */
  lemma {:induction false} ReleaseFreesChain(fat: Fat, cs: seq<nat>, k: nat)
    requires InRange(fat) && IsClosed(fat, cs) && k < |fat|
    ensures Released(fat, cs[0])[k] == if k in cs then Unused else fat[k]
    decreases |cs|
  {
    if |cs| > 1 {
      var fat1, tail := fat[cs[0] := Unused], cs[1..];
      assert fat[cs[0]] == UsedChained(cs[1]);
      ChainTail(fat, cs);
      ReleaseFreesChain(fat1, tail, k);
      assert cs == [cs[0]] + tail;
    }
  }

  lemma {:induction false} ChainTail(fat: Fat, cs: seq<nat>)
    requires IsClosed(fat, cs) && |cs| > 1
    ensures IsClosed(fat[cs[0] := Unused], cs[1..])
  {
    ChainsAreAcyclic(fat, cs);
    var fat1, tail := fat[cs[0] := Unused], cs[1..];
    assert forall i :: 0 <= i < |tail| ==> tail[i] == cs[i + 1] && fat1[tail[i]] == fat[cs[i + 1]];
  }

  // ---- growing and cutting a chain ----

  /** ChainedCluster::prepare: the successor of `src`, allocated and linked if there is none. */
  function Prepared(fat: Fat, src: nat): Option<(Fat, nat)>
    requires IsCluster(fat, src)
  {
    match fat[src].Chain()
    case Some(n) => Some((fat, n))
    case None =>
      match Allocated(fat)
      case None => None
      case Some((fat1, c)) => Some((fat1[src := UsedChained(c)], c))
  }

  lemma {:induction false} ChainExtends(fat: Fat, cs: seq<nat>, c: nat)
    requires IsClosed(fat, cs) && IsCluster(fat, c) && fat[c].Unused? && c != cs[|cs| - 1]
    ensures c !in cs && IsChain(fat[c := UsedEoc][cs[|cs| - 1] := UsedChained(c)], cs + [c])
  {
    ChainsAreAcyclic(fat, cs);
    assert forall i :: 0 <= i < |cs| - 1 ==> Used(fat[cs[i]]);
    var fat', ds := fat[c := UsedEoc][cs[|cs| - 1] := UsedChained(c)], cs + [c];
    assert forall i :: 0 <= i < |cs| - 1 ==> ds[i] == cs[i] && fat'[ds[i]] == fat[cs[i]];
  }

  /** Preparing the successor of the last cluster appends a cluster that was unused, and fails exactly
      when there is none. */
  lemma {:induction false} PrepareExtends(fat: Fat, cs: seq<nat>)
    requires IsChain(fat, cs)
    ensures Prepared(fat, cs[|cs| - 1]) == None <==> forall k: nat :: IsCluster(fat, k) ==> !fat[k].Unused?
    ensures Prepared(fat, cs[|cs| - 1]).Some? ==>
              var (fat', c) := Prepared(fat, cs[|cs| - 1]).value;
              && IsCluster(fat, c) && fat[c].Unused? && c !in cs
              && fat' == fat[c := UsedEoc][cs[|cs| - 1] := UsedChained(c)]
              && IsChain(fat', cs + [c])
  {
    var c := FirstUnused(fat, 2);
    if c < |fat| {
      ChainExtends(fat, cs, c);
      assert IsCluster(fat, c);
    }
  }

  lemma {:induction false} PrepareCounts(fat: Fat, cs: seq<nat>)
    requires IsChain(fat, cs)
    ensures Prepared(fat, cs[|cs| - 1]) == None <==> FreeCount(fat) == 0
    ensures Prepared(fat, cs[|cs| - 1]).Some? ==> FreeCount(Prepared(fat, cs[|cs| - 1]).value.0) == FreeCount(fat) - 1
  {
    hide FreeCount;
    AllocateCounts(fat);
    var c, src := FirstUnused(fat, 2), cs[|cs| - 1];
    if c < |fat| {
      LinkingKeeps(fat[c := UsedEoc], src, UsedChained(c));
    }
  }

  /** On a cluster that is itself marked unused, as a cut leaves it, the successor can be the cluster
      itself: exactly when it is the first unused one. */
  lemma {:induction false} PrepareSelfLoop(fat: Fat, src: nat)
    requires IsCluster(fat, src)
    ensures (Prepared(fat, src).Some? && Prepared(fat, src).value.1 == src && fat[src].Chain() == None)
       <==> (fat[src].Unused? && forall k :: 2 <= k < src ==> !fat[k].Unused?)
  {
  }

  // ---- growing what a cut has left ----

  /** The clusters that are free beside the last one of `cs`. */
  ghost function FreeBeside(fat: Fat, cs: seq<nat>): nat {
    |UnusedClusters(fat) - if cs == [] then {} else {cs[|cs| - 1]}|
  }

  lemma {:induction false} FreeBesideCounts(fat: Fat, cs: seq<nat>)
    ensures FreeBeside(fat, cs) == FreeCount(fat) - if cs != [] && IsCluster(fat, cs[|cs| - 1]) && fat[cs[|cs| - 1]].Unused? then 1 else 0
  {
    if cs == [] {
      assert UnusedClusters(fat) - {} == UnusedClusters(fat);
    } else if cs[|cs| - 1] !in UnusedClusters(fat) {
      assert UnusedClusters(fat) - {cs[|cs| - 1]} == UnusedClusters(fat);
    }
  }

  /** The last cluster of `cs` is the first unused one: asked for a successor it gives itself. */
  ghost predicate Binds(fat: Fat, cs: seq<nat>) {
    && cs != [] && IsCluster(fat, cs[|cs| - 1]) && fat[cs[|cs| - 1]].Unused?
    && forall k :: 2 <= k < cs[|cs| - 1] ==> !fat[k].Unused?
  }

  /** It has done so. */
  ghost predicate IsBound(fat: Fat, cs: seq<nat>) {
    cs != [] && IsCluster(fat, cs[|cs| - 1]) && fat[cs[|cs| - 1]] == UsedChained(cs[|cs| - 1])
  }

  /** The last cluster stands for all clusters that follow. */
  ghost predicate Loops(fat: Fat, cs: seq<nat>) {
    Binds(fat, cs) || IsBound(fat, cs)
  }

  /** The successor of the last cluster of a chain or of what a cut has left: the cluster itself, or a new one
      that makes it a chain again. There is none exactly when nothing is free beside it and it does not bind. */
  lemma {:induction false} PrepareClosed(fat: Fat, cs: seq<nat>)
    requires IsClosed(fat, cs)
    ensures Prepared(fat, cs[|cs| - 1]) == None <==> !Binds(fat, cs) && FreeBeside(fat, cs) == 0
    ensures Binds(fat, cs) ==> Prepared(fat, cs[|cs| - 1]) == Some((fat[cs[|cs| - 1] := UsedChained(cs[|cs| - 1])], cs[|cs| - 1]))
    ensures Prepared(fat, cs[|cs| - 1]).Some? && !Binds(fat, cs) ==>
              var (fat', c) := Prepared(fat, cs[|cs| - 1]).value;
              && IsCluster(fat, c) && fat[c].Unused? && c !in cs
              && fat' == fat[c := UsedEoc][cs[|cs| - 1] := UsedChained(c)]
              && IsChain(fat', cs + [c]) && FreeBeside(fat', cs + [c]) == FreeBeside(fat, cs) - 1
  {
    hide FreeBeside, IsClosed;
    LastAccessible(fat, cs);
    var c, last := FirstUnused(fat, 2), cs[|cs| - 1];
    FirstFree(fat, cs, c);
    if Binds(fat, cs) {
      assert fat[last := UsedEoc][last := UsedChained(last)] == fat[last := UsedChained(last)];
    } else if c < |fat| {
      ChainExtends(fat, cs, c);
      GrowthCounts(fat, cs, c);
    }
  }

  lemma LastAccessible(fat: Fat, cs: seq<nat>)
    requires IsClosed(fat, cs)
    ensures cs != [] && IsCluster(fat, cs[|cs| - 1]) && fat[cs[|cs| - 1]].Chain() == None
    ensures forall c :: c in cs ==> IsCluster(fat, c)
  {
  }

  lemma {:induction false} FirstFree(fat: Fat, cs: seq<nat>, c: nat)
    requires IsClosed(fat, cs) && c == FirstUnused(fat, 2)
    ensures Binds(fat, cs) <==> c == cs[|cs| - 1]
    ensures !Binds(fat, cs) ==> (c == |fat| <==> FreeBeside(fat, cs) == 0)
  {
    var last := cs[|cs| - 1];
    if c == |fat| {
      assert UnusedClusters(fat) - {last} == {};
    } else if c != last {
      assert c in UnusedClusters(fat) - {last};
    }
  }

  lemma {:induction false} GrowthCounts(fat: Fat, cs: seq<nat>, c: nat)
    requires cs != [] && IsCluster(fat, cs[|cs| - 1]) && IsCluster(fat, c) && fat[c].Unused? && c != cs[|cs| - 1]
    ensures FreeBeside(fat[c := UsedEoc][cs[|cs| - 1] := UsedChained(c)], cs + [c]) == FreeBeside(fat, cs) - 1
  {
    var last := cs[|cs| - 1];
    var fat' := fat[c := UsedEoc][last := UsedChained(c)];
    assert UnusedClusters(fat') - {c} == (UnusedClusters(fat) - {last}) - {c};
    assert c in UnusedClusters(fat) - {last};
    assert (cs + [c])[|cs|] == c;
  }

  /** The first cluster of a file. */
  lemma {:induction false} AllocateBeside(fat: Fat)
    requires |fat| >= 2
    ensures Allocated(fat) == None <==> FreeBeside(fat, []) == 0
    ensures Allocated(fat).Some? ==>
              var (fat', c) := Allocated(fat).value; FreeBeside(fat', [c]) == FreeBeside(fat, []) - 1 && fat'[c].UsedEoc?
  {
    hide FreeCount, FreeBeside;
    AllocateCounts(fat);
    FreeBesideCounts(fat, []);
    if Allocated(fat).Some? {
      var (fat', c) := Allocated(fat).value;
      FreeBesideCounts(fat', [c]);
    }
  }

  lemma {:induction false} BindingKeeps(fat: Fat, cs: seq<nat>)
    requires Binds(fat, cs)
    ensures FreeBeside(fat[cs[|cs| - 1] := UsedChained(cs[|cs| - 1])], cs) == FreeBeside(fat, cs)
  {
    var last := cs[|cs| - 1];
    assert UnusedClusters(fat[last := UsedChained(last)]) - {last} == UnusedClusters(fat) - {last};
  }

  /** ChainedCluster::release: `src` is marked unused, not end of chain, and what follows is freed. */
  ghost function Cut(fat: Fat, src: nat): Fat
    requires InRange(fat) && IsCluster(fat, src)
  {
    match fat[src].Chain()
    case Some(n) => Released(fat[src := Unused], n)
    case None => fat
  }

  /** A cut in a chain frees exactly the clusters behind `cs[j]`, and marks `cs[j]` unused as well
      unless it was the last. */
  lemma {:induction false} CutFreesRest(fat: Fat, cs: seq<nat>, j: nat, k: nat)
    requires InRange(fat) && IsClosed(fat, cs) && j < |cs| && k < |fat|
    ensures Cut(fat, cs[j])[k] == if j < |cs| - 1 && k in cs[j..] then Unused else fat[k]
  {
    if j < |cs| - 1 {
      assert fat[cs[j]] == UsedChained(cs[j + 1]);
      ChainSuffix(fat, cs, j);
      ReleaseFreesChain(fat, cs[j..], k);
      assert cs[j..][0] == cs[j];
    }
  }

  lemma {:induction false} ChainSuffix(fat: Fat, cs: seq<nat>, j: nat)
    requires IsClosed(fat, cs) && j < |cs|
    ensures IsClosed(fat, cs[j..])
  {
    var ds := cs[j..];
    assert forall i :: 0 <= i < |ds| ==> ds[i] == cs[i + j];
  }

  // ---- ownership over whole runs ----

  /** The table together with the chain every file owns. */
  datatype Owners = Owners(fat: Fat, chains: map<nat, seq<nat>>)

  ghost predicate Owns(chains: map<nat, seq<nat>>, i: nat, c: nat) {
    i in chains && c in chains[i]
  }

  ghost predicate AllChains(o: Owners) {
    forall i :: i in o.chains ==> IsChain(o.fat, o.chains[i])
  }

  ghost predicate Disjoint(o: Owners) {
    forall i, j, c :: Owns(o.chains, i, c) && Owns(o.chains, j, c) ==> i == j
  }

  ghost predicate Covered(o: Owners) {
    forall c: nat :: IsCluster(o.fat, c) && Used(o.fat[c]) ==> exists i :: Owns(o.chains, i, c)
  }

  /** File chains are chains, share no cluster, and hold every cluster in use. */
  ghost predicate Owned(o: Owners) {
    |o.fat| >= 2 && InRange(o.fat) && AllChains(o) && Disjoint(o) && Covered(o)
  }

  /** What the file layer does to the table: the first cluster of a file, the next one, all of them. */
  datatype Op = Create(file: nat) | Append(file: nat) | Remove(file: nat)

  ghost function Step(o: Owners, op: Op): Owners
    requires Owned(o)
  {
    match op
    case Create(i) =>
      if i in o.chains then o else
      (match Allocated(o.fat)
       case None => o
       case Some((fat', c)) => Owners(fat', o.chains[i := [c]]))
    case Append(i) =>
      if i !in o.chains then o else
      (match Prepared(o.fat, o.chains[i][|o.chains[i]| - 1])
       case None => o
       case Some((fat', c)) => Owners(fat', o.chains[i := o.chains[i] + [c]]))
    case Remove(i) =>
      if i !in o.chains then o else Owners(Released(o.fat, o.chains[i][0]), o.chains - {i})
  }

  lemma {:induction false} ChainFrame(fat: Fat, fat': Fat, cs: seq<nat>)
    requires IsChain(fat, cs) && |fat'| == |fat| && (forall c :: c in cs ==> fat'[c] == fat[c])
    ensures IsChain(fat', cs)
  {
    assert forall i :: 0 <= i < |cs| ==> cs[i] in cs && fat'[cs[i]] == fat[cs[i]];
  }

  lemma {:induction false} ChainInUse(fat: Fat, cs: seq<nat>, c: nat)
    requires IsChain(fat, cs) && c in cs
    ensures IsCluster(fat, c) && Used(fat[c])
  {
    var i :| 0 <= i < |cs| && cs[i] == c;
    assert fat[cs[i]] == fat[c];
  }

  /** The chains survive a change to entries that no file owns. */
  lemma {:induction false} OthersSurvive(o: Owners, fat': Fat, i: nat)
    requires AllChains(o) && |fat'| == |o.fat|
    requires forall j: nat, c: nat :: j != i && Owns(o.chains, j, c) ==> c < |o.fat| && fat'[c] == o.fat[c]
    ensures forall j :: j in o.chains && j != i ==> IsChain(fat', o.chains[j])
  {
    hide IsChain;
    forall j | j in o.chains && j != i ensures IsChain(fat', o.chains[j]) {
      assert forall c :: c in o.chains[j] ==> Owns(o.chains, j, c);
      ChainFrame(o.fat, fat', o.chains[j]);
    }
  }

  lemma {:induction false} OwnedInUse(o: Owners)
    requires AllChains(o)
    ensures forall j: nat, c: nat :: Owns(o.chains, j, c) ==> IsCluster(o.fat, c) && Used(o.fat[c])
  {
    hide IsChain;
    forall j: nat, c: nat | Owns(o.chains, j, c) ensures IsCluster(o.fat, c) && Used(o.fat[c]) {
      ChainInUse(o.fat, o.chains[j], c);
    }
  }

  lemma {:induction false} CreateKeepsOwned(o: Owners, i: nat)
    requires Owned(o)
    ensures Owned(Step(o, Create(i)))
  {
    hide IsChain;
    if i !in o.chains && Allocated(o.fat).Some? {
      var (fat', c) := Allocated(o.fat).value;
      var o' := Owners(fat', o.chains[i := [c]]);
      OwnedInUse(o);
      SingletonChain(fat', c);
      OthersSurvive(o, fat', i);
      assert forall j, d :: Owns(o'.chains, j, d) <==> (if j == i then d == c else Owns(o.chains, j, d));
      assert Covered(o') by {
        assert Owns(o'.chains, i, c);
        CoveredAfter(o, o', i);
      }
    }
  }

  lemma {:induction false} SingletonChain(fat: Fat, c: nat)
    requires IsCluster(fat, c) && fat[c].UsedEoc?
    ensures IsChain(fat, [c])
  {
  }

  /** Coverage carries over when the other files keep their clusters. */
  lemma {:induction false} CoveredAfter(o: Owners, o': Owners, i: nat)
    requires Covered(o) && |o'.fat| == |o.fat|
    requires forall j, c :: j != i && Owns(o.chains, j, c) ==> Owns(o'.chains, j, c)
    requires forall c: nat :: IsCluster(o.fat, c) && Used(o'.fat[c]) ==> Used(o.fat[c]) || Owns(o'.chains, i, c)
    requires forall c: nat :: IsCluster(o.fat, c) && Used(o'.fat[c]) && Owns(o.chains, i, c) ==> Owns(o'.chains, i, c)
    ensures Covered(o')
  {
    forall c: nat | IsCluster(o'.fat, c) && Used(o'.fat[c]) ensures exists j :: Owns(o'.chains, j, c) {
      if !Owns(o'.chains, i, c) {
        var j :| Owns(o.chains, j, c);
        assert Owns(o'.chains, j, c);
      }
    }
  }

  lemma {:induction false} AppendKeepsOwned(o: Owners, i: nat)
    requires Owned(o)
    ensures Owned(Step(o, Append(i)))
  {
    hide IsChain;
    if i in o.chains {
      var cs := o.chains[i];
      NonEmptyChain(o.fat, cs);
      var src := cs[|cs| - 1];
      PrepareExtends(o.fat, cs);
      if Prepared(o.fat, src).Some? {
        var (fat', c) := Prepared(o.fat, src).value;
        var o' := Owners(fat', o.chains[i := cs + [c]]);
        OwnedInUse(o);
        assert Owns(o.chains, i, src);
        OthersSurvive(o, fat', i);
        assert forall j, d :: Owns(o'.chains, j, d) <==> (if j == i then d == c || d in cs else Owns(o.chains, j, d));
        assert AllChains(o');
        assert Disjoint(o') by {
          assert forall j: nat :: !Owns(o.chains, j, c);
          assert forall d :: d in cs ==> Owns(o.chains, i, d);
        }
        assert Covered(o') by {
          CoveredAfter(o, o', i);
        }
        assert InRange(fat');
      }
    }
  }

  lemma {:induction false} NonEmptyChain(fat: Fat, cs: seq<nat>)
    requires IsChain(fat, cs)
    ensures |cs| > 0 && IsCluster(fat, cs[0]) && IsCluster(fat, cs[|cs| - 1])
  {
  }

  lemma {:induction false} NonEmptyPath(fat: Fat, cs: seq<nat>)
    requires IsPath(fat, cs)
    ensures |cs| > 0 && IsCluster(fat, cs[0]) && IsCluster(fat, cs[|cs| - 1])
  {
  }

  lemma {:induction false} RemoveKeepsOwned(o: Owners, i: nat)
    requires Owned(o)
    ensures Owned(Step(o, Remove(i)))
  {
    hide IsChain;
    if i in o.chains {
      var cs := o.chains[i];
      NonEmptyChain(o.fat, cs);
      ChainIsClosed(o.fat, cs);
      var fat' := Released(o.fat, cs[0]);
      forall k: nat | k < |o.fat| ensures fat'[k] == if k in cs then Unused else o.fat[k] {
        ReleaseFreesChain(o.fat, cs, k);
      }
      var o' := Owners(fat', o.chains - {i});
      OwnedInUse(o);
      assert forall d :: d in cs <==> Owns(o.chains, i, d);
      OthersSurvive(o, fat', i);
      assert forall j, d :: Owns(o'.chains, j, d) <==> j != i && Owns(o.chains, j, d);
      assert Covered(o') by {
        CoveredAfter(o, o', i);
      }
    }
  }

  /** Every step keeps the table and its owners consistent. */
  lemma {:induction false} StepKeepsOwned(o: Owners, op: Op)
    requires Owned(o)
    ensures Owned(Step(o, op))
  {
    match op
    case Create(i) => CreateKeepsOwned(o, i);
    case Append(i) => AppendKeepsOwned(o, i);
    case Remove(i) => RemoveKeepsOwned(o, i);
  }

  /** A run of steps. */
  ghost predicate IsRun(states: seq<Owners>, ops: seq<Op>) {
    && |states| == |ops| + 1
    && Owned(states[0])
    && forall i {:trigger ops[i]} :: 0 <= i < |ops| ==> Owned(states[i]) ==> states[i + 1] == Step(states[i], ops[i])
  }

  /** In every state of every run the file chains are acyclic, end-of-chain terminated, pairwise
      disjoint, and hold every cluster in use. */
  lemma {:induction false} RunsKeepOwned(states: seq<Owners>, ops: seq<Op>, i: nat)
    requires IsRun(states, ops) && i < |states|
    ensures Owned(states[i])
  {
    if i > 0 {
      RunsKeepOwned(states, ops, i - 1);
      StepKeepsOwned(states[i - 1], ops[i - 1]);
    }
  }

  /** A cut keeps the file a chain exactly when nothing was behind it: otherwise the cluster it ends
      in is marked unused, and the next allocation may take it. */
  lemma {:induction false} CutKeepsOwned(o: Owners, i: nat, j: nat)
    requires Owned(o) && i in o.chains && j < |o.chains[i]|
    ensures Owned(Owners(Cut(o.fat, o.chains[i][j]), o.chains[i := o.chains[i][..j + 1]])) <==> j == |o.chains[i]| - 1
  {
    hide Disjoint, Covered, InRange;
    var cs := o.chains[i];
    var o' := Owners(Cut(o.fat, cs[j]), o.chains[i := cs[..j + 1]]);
    if j == |cs| - 1 {
      assert cs[..j + 1] == cs;
      assert o' == o;
    } else {
      CutFreesRest(o.fat, cs, j, cs[j]);
      assert cs[j..][0] == cs[j];
      assert o'.chains[i][|o'.chains[i]| - 1] == cs[j];
      assert !IsChain(o'.fat, o'.chains[i]);
    }
  }

  // ---- what a cut does to other files ----

  /** File `i` was cut behind the clusters `p`, which left the table `fat`. */
  ghost predicate WasCut(o: Owners, i: nat, p: seq<nat>, fat: Fat) {
    && Owned(o) && i in o.chains && p != [] && |p| < |o.chains[i]| && p == o.chains[i][..|p|]
    && IsCluster(o.fat, p[|p| - 1]) && fat == Cut(o.fat, p[|p| - 1])
  }

  ghost predicate IsLowestUnused(fat: Fat, c: nat) {
    IsCluster(fat, c) && fat[c].Unused? && forall k :: 2 <= k < c ==> !fat[k].Unused?
  }

  /** The last cluster of the path `p` of one file is the last one of the chain `ds` of another. */
  ghost predicate Shared(fat: Fat, p: seq<nat>, ds: seq<nat>) {
    InRange(fat) && IsPath(fat, p) && IsChain(fat, ds) && p[|p| - 1] == ds[|ds| - 1]
  }

  /** The next allocation takes the last cluster of a file that was cut exactly when no lower one is unused. */
  lemma {:induction false} CutClusterTaken(o: Owners, i: nat, p: seq<nat>, fat: Fat)
    requires WasCut(o, i, p, fat)
    ensures |fat| >= 2 && InRange(fat) && IsClosed(fat, p) && fat[p[|p| - 1]].Unused?
    ensures Allocated(fat).Some? && (Allocated(fat).value.1 == p[|p| - 1] <==> IsLowestUnused(fat, p[|p| - 1]))
  {
    hide Disjoint, Covered;
    CutLeaves(o, i, p, fat);
    CutInRange(o, i, |p| - 1);
  }

  lemma {:induction false} CutLeaves(o: Owners, i: nat, p: seq<nat>, fat: Fat)
    requires WasCut(o, i, p, fat)
    ensures IsClosed(fat, p) && fat[p[|p| - 1]].Unused?
  {
    hide Disjoint, Covered, Cut;
    var cs, j := o.chains[i], |p| - 1;
    ChainIsClosed(o.fat, cs);
    CutInRange(o, i, j);
    forall k: nat | k < |o.fat| ensures fat[k] == if k in cs[j..] then Unused else o.fat[k] {
      CutFreesRest(o.fat, cs, j, k);
    }
    assert cs[j..][0] == cs[j];
    ChainsAreAcyclic(o.fat, cs);
    forall x | 0 <= x < j ensures fat[p[x]] == UsedChained(p[x + 1]) {
      assert o.fat[cs[x]] == UsedChained(cs[x + 1]);
      assert cs[x] !in cs[j..];
    }
  }

  /** A new file that takes it as its first cluster shares it with the file that was cut. */
  lemma {:induction false} CutClusterCreated(o: Owners, i: nat, p: seq<nat>, fat: Fat)
    requires WasCut(o, i, p, fat) && IsLowestUnused(fat, p[|p| - 1])
    ensures var last := p[|p| - 1]; Allocated(fat) == Some((fat[last := UsedEoc], last)) && Shared(fat[last := UsedEoc], p, [last])
  {
    hide WasCut;
    CutClusterTaken(o, i, p, fat);
    PathKept(fat, p, p[|p| - 1], p[|p| - 1]);
  }

  /** So does another file that takes it behind the clusters it had. */
  lemma {:induction false} CutClusterAppended(o: Owners, i: nat, p: seq<nat>, fat: Fat, k: nat, d: nat)
    requires WasCut(o, i, p, fat) && IsLowestUnused(fat, p[|p| - 1]) && k in o.chains && k != i
    requires o.chains[k] != [] && d == o.chains[k][|o.chains[k]| - 1] && IsCluster(fat, d)
    ensures var last := p[|p| - 1];
            var fat' := fat[last := UsedEoc][d := UsedChained(last)];
            Prepared(fat, d) == Some((fat', last)) && Shared(fat', p, o.chains[k] + [last])
  {
    hide Covered, Cut, IsPath, IsChain;
    var cs, last, ds := o.chains[i], p[|p| - 1], o.chains[k];
    CutClusterTaken(o, i, p, fat);
    OtherStays(o, i, |p| - 1, k);
    PrepareExtends(fat, ds);
    assert forall x :: x in p ==> Owns(o.chains, i, x);
    assert Owns(o.chains, k, d);
    PathKept(fat, p, last, d);
  }

  lemma {:induction false} CutInRange(o: Owners, i: nat, j: nat)
    requires Owned(o) && i in o.chains && j < |o.chains[i]|
    ensures IsCluster(o.fat, o.chains[i][j]) && InRange(Cut(o.fat, o.chains[i][j])) && |Cut(o.fat, o.chains[i][j])| == |o.fat|
  {
    hide Disjoint, Covered;
    var cs := o.chains[i];
    ChainIsClosed(o.fat, cs);
    forall k: nat | k < |o.fat| ensures Cut(o.fat, cs[j])[k] == if j < |cs| - 1 && k in cs[j..] then Unused else o.fat[k] {
      CutFreesRest(o.fat, cs, j, k);
    }
  }

  /** The chains of the other files survive the cut. */
  lemma {:induction false} OtherStays(o: Owners, i: nat, j: nat, k: nat)
    requires Owned(o) && i in o.chains && j < |o.chains[i]| && k in o.chains && k != i
    ensures IsCluster(o.fat, o.chains[i][j]) && IsChain(Cut(o.fat, o.chains[i][j]), o.chains[k])
  {
    hide Covered;
    var cs, ds := o.chains[i], o.chains[k];
    CutInRange(o, i, j);
    ChainIsClosed(o.fat, cs);
    var fat := Cut(o.fat, cs[j]);
    forall c | c in ds ensures c < |o.fat| && fat[c] == o.fat[c] {
      ChainInUse(o.fat, ds, c);
      CutFreesRest(o.fat, cs, j, c);
      assert Owns(o.chains, k, c);
      assert forall x :: x in cs[j..] ==> Owns(o.chains, i, x);
    }
    ChainFrame(o.fat, fat, ds);
  }

  lemma {:induction false} PathKept(fat: Fat, p: seq<nat>, last: nat, d: nat)
    requires IsPath(fat, p) && last == p[|p| - 1] && fat[last].Unused? && IsCluster(fat, d) && (d == last || d !in p)
    ensures IsPath(fat[last := UsedEoc], p) && IsPath(fat[last := UsedEoc][d := UsedChained(last)], p)
  {
    forall x | 0 <= x < |p| - 1 ensures p[x] != last && p[x] != d {
      assert fat[p[x]] == UsedChained(p[x + 1]) && p[x] in p;
    }
  }

  /** Releasing a file whose last cluster is also in the chain `ds` of another one frees exactly its own
      clusters and those of the other one from there on. */
  lemma {:induction false} SharedReleased(fat: Fat, p: seq<nat>, ds: seq<nat>, q: nat, k: nat)
    requires InRange(fat) && IsPath(fat, p) && IsChain(fat, ds) && q < |ds| && p[|p| - 1] == ds[q] && k < |fat|
    ensures Released(fat, p[0])[k] == if k in p || k in ds[q..] then Unused else fat[k]
    ensures !IsChain(Released(fat, p[0]), ds)
  {
    var cs := p + ds[q + 1..];
    forall x | 0 <= x < |cs| - 1 ensures fat[cs[x]] == UsedChained(cs[x + 1]) {
      if x < |p| - 1 {
        assert fat[p[x]] == UsedChained(p[x + 1]);
      } else {
        assert cs[x] == ds[q + (x - (|p| - 1))] && fat[ds[q + (x - (|p| - 1))]] == UsedChained(ds[q + (x - (|p| - 1)) + 1]);
      }
    }
    assert cs[|cs| - 1] == ds[|ds| - 1];
    assert IsClosed(fat, cs);
    ReleaseFreesChain(fat, cs, k);
    assert ds[q..] == [ds[q]] + ds[q + 1..];
    assert k in cs <==> k in p || k in ds[q..];
    ReleaseFreesChain(fat, cs, ds[|ds| - 1]);
    assert ds[|ds| - 1] in cs;
  }
}
