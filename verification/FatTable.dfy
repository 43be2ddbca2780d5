/** BufferedFat and ChainedCluster of fs/fat/low_level.rs over a mounted volume. */
module FatTable {
  import opened Bytes
  import opened FatEntries
  import opened BootSectors
  import opened LowLevel
  import opened Chains

  datatype Error = Full

  /** The slot of cluster `n` on the volume is zero in its low 28 bits. */
  ghost predicate ZeroSlot(root: Root, n: nat)
    requires root.Valid() && root.bs.IsClusterAvailable(n)
    reads root, root.volume
  {
    Low28(SlotBytes(root.bs, root.Sectors(), n)) == 0
  }

  /** The unused clusters of the table are those whose slot is zero. */
  lemma {:induction false} ZeroSlots(root: Root)
    requires root.Valid()
    ensures |root.State().fat| == root.bs.ClusterCount() + 2
    ensures forall n: nat :: root.bs.IsClusterAvailable(n) ==> (root.State().fat[n].Unused? <==> ZeroSlot(root, n))
  {
    hide Root.Valid, BootSector.Consistent, Low28, SlotBytes;
    root.Shapes();
    forall n: nat | root.bs.IsClusterAvailable(n) ensures root.State().fat[n].Unused? <==> ZeroSlot(root, n) {
      SlotMeans(root.bs, root.Sectors(), n, Unused);
    }
  }

  /** BufferedFat::allocate. */
  method Allocate(root: Root) returns (r: Result<nat, Error>)
    requires root.Valid()
    modifies root.volume
    ensures root.Valid() && |old(root.State()).fat| >= 2
    ensures match Allocated(old(root.State()).fat)
            case None => r == Err(Full) && root.State() == old(root.State())
            case Some(t) => r == Ok(t.1) && root.State() == old(root.State()).(fat := t.0)
    ensures r.Err? <==> forall n: nat :: root.bs.IsClusterAvailable(n) ==> !old(ZeroSlot(root, n))
    ensures r.Ok? ==> root.bs.IsClusterAvailable(r.value) && old(ZeroSlot(root, r.value)) && !ZeroSlot(root, r.value)
    ensures r.Ok? ==> forall n: nat :: n < r.value && root.bs.IsClusterAvailable(n) ==> !old(ZeroSlot(root, n))
  {
    hide Root.Valid, Root.State, BootSector.Consistent, BootSector.ClusterCount, ZeroSlot;
    root.Shapes();
    ZeroSlots(root);
    var c := 2;
    while root.bs.IsClusterAvailable(c)
      invariant root.Valid() && root.State() == old(root.State())
      invariant 2 <= c <= |old(root.State()).fat|
      decreases |old(root.State()).fat| - c
      invariant FirstUnused(old(root.State()).fat, 2) == FirstUnused(old(root.State()).fat, c)
    {
      var e := root.ReadFat(c);
      if e.Unused? {
        root.WriteFat(c, UsedEoc);
        ZeroSlots(root);
        return Ok(c);
      }
      c := c + 1;
    }
    return Err(Full);
  }

  /** A release leaves unused what was unused and what is reached. */
  lemma {:induction false} FreedUnused(fat: Fat, first: nat)
    requires InRange(fat) && IsCluster(fat, first)
    ensures |Released(fat, first)| == |fat|
    ensures forall n: nat :: n < |fat| ==> (Released(fat, first)[n].Unused? <==> fat[n].Unused? || Reaches(fat, first, n))
  {
    hide Reaches, Released;
    forall n: nat | n < |fat| ensures Released(fat, first)[n].Unused? <==> fat[n].Unused? || Reaches(fat, first, n) {
      ReleaseFreesReachable(fat, first, n);
    }
  }

  /** BufferedFat::release. */
  method Release(root: Root, first: nat)
    requires root.Valid() && InRange(root.State().fat) && IsCluster(root.State().fat, first)
    modifies root.volume
    ensures root.Valid() && root.State() == old(root.State()).(fat := Released(old(root.State()).fat, first))
    ensures |old(root.State()).fat| == root.bs.ClusterCount() + 2
    ensures forall n: nat :: root.bs.IsClusterAvailable(n) ==>
              (ZeroSlot(root, n) <==> old(ZeroSlot(root, n)) || Reaches(old(root.State()).fat, first, n))
  {
    hide Root.Valid, Root.State, BootSector.Consistent, BootSector.ClusterCount, ZeroSlot, Reaches;
    root.Shapes();
    ZeroSlots(root);
    FreedUnused(root.State().fat, first);
    var next := Some(first);
    while next.Some?
      invariant root.Valid() && root.State().data == old(root.State()).data
      invariant InRange(root.State().fat) && |root.State().fat| == |old(root.State()).fat|
      invariant next.Some? ==> IsCluster(root.State().fat, next.value)
      invariant Released(old(root.State()).fat, first)
             == if next.Some? then Released(root.State().fat, next.value) else root.State().fat
      decreases next.Some?, |UsedClusters(root.State().fat)|
    {
      var c := next.value;
      var e := root.ReadFat(c);
      match e {
        case UsedChained(n) => next := Some(n);
        case UsedEoc => next := None;
        case _ => break;
      }
      FreeingDecreases(root.State().fat, c);
      root.WriteFat(c, Unused);
    }
    ZeroSlots(root);
  }

  /** ChainedCluster::get. */
  method Next(root: Root, src: nat) returns (r: Option<nat>)
    requires root.Valid() && IsCluster(root.State().fat, src)
    modifies root.volume
    ensures root.Valid() && root.State() == old(root.State())
    ensures r == root.State().fat[src].Chain()
  {
    hide Root.Valid, Root.State, BootSector.Consistent, BootSector.ClusterCount;
    root.Shapes();
    var e := root.ReadFat(src);
    r := e.Chain();
  }

  /** ChainedCluster::prepare. */
  method Prepare(root: Root, src: nat) returns (r: Result<nat, Error>)
    requires root.Valid() && IsCluster(root.State().fat, src)
    modifies root.volume
    ensures root.Valid()
    ensures match Prepared(old(root.State()).fat, src)
            case None => r == Err(Full) && root.State() == old(root.State())
            case Some(t) => r == Ok(t.1) && root.State() == old(root.State()).(fat := t.0)
  {
    hide Root.Valid, Root.State, BootSector.Consistent, BootSector.ClusterCount;
    root.Shapes();
    var n := Next(root, src);
    if n.Some? {
      return Ok(n.value);
    }
    r := Allocate(root);
    if r.Ok? {
      root.WriteFat(src, UsedChained(r.value));
    }
  }

  /** ChainedCluster::release. */
  method ReleaseRest(root: Root, src: nat)
    requires root.Valid() && InRange(root.State().fat) && IsCluster(root.State().fat, src)
    modifies root.volume
    ensures root.Valid() && root.State() == old(root.State()).(fat := Cut(old(root.State()).fat, src))
  {
    hide Root.Valid, Root.State, BootSector.Consistent, BootSector.ClusterCount;
    root.Shapes();
    var n := Next(root, src);
    if n.Some? {
      root.WriteFat(src, Unused);
      Release(root, n.value);
    }
  }
}
