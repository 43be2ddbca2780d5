/** The fixed-size array with arbitrary indices, ors-common/src/non_contiguous.rs. */
module OpenAddressing {
  import opened Bytes
  import opened Remainders

  datatype BucketIndex = Vacant(index: nat) | Occupied(index: nat)

  /** The bucket that the search for `i` looks at after `o` others. */
  function Probe(i: nat, o: nat, n: nat): (b: nat)
    requires n > 0
    ensures b < n && (o == 0 && i < n ==> b == i)
  {
    (i + o) % n
  }

  /** The search for an index comes to every bucket. */
  lemma {:induction false} ProbeReaches(i: nat, b: nat, n: nat) returns (o: nat)
    requires b < n
    ensures o < n && Probe(i, o, n) == b
  {
    o := RemainderReached(i, b, n);
  }

  /** The number of buckets in use. */
  ghost function Count<V>(bs: seq<Option<(nat, V)>>): nat {
    if bs == [] then 0 else Count(bs[..|bs| - 1]) + if bs[|bs| - 1].Some? then 1 else 0
  }

  lemma {:induction false} CountPut<V>(bs: seq<Option<(nat, V)>>, b: nat, x: (nat, V))
    requires b < |bs|
    ensures Count(bs[b := Some(x)]) == Count(bs) + if bs[b].Some? then 0 else 1
  {
    var k, cs := |bs| - 1, bs[b := Some(x)];
    if b < k {
      CountPut(bs[..k], b, x);
      assert cs[..k] == bs[..k][b := Some(x)];
    } else {
      assert cs[..k] == bs[..k];
    }
  }

  lemma {:induction false} CountBound<V>(bs: seq<Option<(nat, V)>>)
    ensures Count(bs) <= |bs|
    ensures Count(bs) == |bs| <==> forall b :: 0 <= b < |bs| ==> bs[b].Some?
  {
    if bs != [] {
      CountBound(bs[..|bs| - 1]);
      assert forall b :: 0 <= b < |bs| - 1 ==> bs[..|bs| - 1][b] == bs[b];
    }
  }

  /** The entry of `i` is `o` buckets from its first choice, with no gap before it. */
  ghost predicate Placed<V>(bs: seq<Option<(nat, V)>>, i: nat, o: nat, v: V) {
    && 0 < |bs| && o < |bs|
    && bs[Probe(i, o, |bs|)] == Some((i, v))
    && forall p: nat :: p < o ==> OtherAt(bs, i, p)
  }

  /** Bucket `p` of the search for `i` holds another index. */
  ghost predicate OtherAt<V>(bs: seq<Option<(nat, V)>>, i: nat, p: nat)
    requires 0 < |bs|
  {
    bs[Probe(i, p, |bs|)].Some? && bs[Probe(i, p, |bs|)].value.0 != i
  }

  /** The buckets hold exactly the entries of `m`. */
  ghost predicate Holds<V(!new)>(bs: seq<Option<(nat, V)>>, m: map<nat, V>) {
    && (forall i: nat :: i in m ==> exists o: nat :: Placed(bs, i, o, m[i]))
    && (forall b: nat :: b < |bs| && bs[b].Some? ==> bs[b].value.0 in m && m[bs[b].value.0] == bs[b].value.1)
    && (forall b: nat, c: nat :: b < |bs| && c < |bs| && b != c && bs[b].Some? && bs[c].Some? ==> bs[b].value.0 != bs[c].value.0)
  }

  class Array<V(!new,0)> {
    var len: nat
    const buckets: array<Option<(nat, V)>>
    ghost var contents: map<nat, V>

    ghost predicate Valid()
      reads this, buckets
    {
      && Holds(buckets[..], contents)
      && len == |contents| == Count(buckets[..])
    }

    constructor (n: nat)
      ensures Valid() && fresh(buckets) && buckets.Length == n && contents == map[]
    {
      len := 0;
      contents := map[];
      buckets := new Option<(nat, V)>[n](_ => None);
      new;
      NoneUsed(buckets[..]);
    }

    /** Array::bucket_index: where an index is or belongs, or nothing when all buckets hold others. */
    method Find(i: nat) returns (r: Option<BucketIndex>)
      requires Valid()
      ensures match r
              case None => i !in contents && len == buckets.Length
              case Some(Vacant(b)) =>
                && i !in contents && len < buckets.Length && b < buckets.Length && buckets[b] == None
                && exists o: nat :: o < buckets.Length && Probe(i, o, buckets.Length) == b && forall p: nat :: p < o ==> OtherAt(buckets[..], i, p)
              case Some(Occupied(b)) => i in contents && b < buckets.Length && buckets[b] == Some((i, contents[i]))
    {
      hide Count;
      var n := buckets.Length;
      for o := 0 to n
        invariant forall p: nat :: p < o ==> OtherAt(buckets[..], i, p)
      {
        var b := Probe(i, o, n);
        match buckets[b] {
          case None =>
            if i in contents {
              PresentAt(buckets[..], contents, i, o);
            }
            CountBound(buckets[..]);
            return Some(Vacant(b));
          case Some((j, v)) =>
            if i == j {
              return Some(Occupied(b));
            }
        }
      }
      AllOthers(buckets[..], contents, i);
      CountBound(buckets[..]);
      return None;
    }

    /** Array::clear. */
    method Clear()
      modifies this`len, this`contents, buckets
      ensures Valid() && contents == map[]
    {
      for b := 0 to buckets.Length
        invariant forall c :: 0 <= c < b ==> buckets[c] == None
      {
        buckets[b] := None;
      }
      len := 0;
      contents := map[];
      NoneUsed(buckets[..]);
    }

    /** Array::get. */
    method Get(i: nat) returns (v: Option<V>)
      requires Valid()
      ensures v == if i in contents then Some(contents[i]) else None
    {
      var t := Find(i);
      match t {
        case Some(Occupied(b)) => return Some(buckets[b].value.1);
        case _ => return None;
      }
    }

    /** Array::insert: fails exactly for a new index when there are as many entries as buckets. */
    method Insert(i: nat, v: V) returns (r: Result<Option<V>, Full>)
      requires Valid()
      modifies this`len, this`contents, buckets
      ensures Valid()
      ensures r == Err(Full) <==> i !in old(contents) && |old(contents)| == buckets.Length
      ensures r.Err? ==> contents == old(contents)
      ensures r.Ok? ==> contents == old(contents)[i := v] && r.value == if i in old(contents) then Some(old(contents)[i]) else None
    {
      hide Count, Holds;
      var t := Find(i);
      match t {
        case None =>
          return Err(Full);
        case Some(Vacant(b)) =>
          ghost var o: nat :| o < buckets.Length && Probe(i, o, buckets.Length) == b && forall p: nat :: p < o ==> OtherAt(buckets[..], i, p);
          NewPut(buckets[..], contents, i, o, v);
          CountPut(buckets[..], b, (i, v));
          buckets[b] := Some((i, v));
          len := len + 1;
          assert buckets[..] == old(buckets[..])[b := Some((i, v))];
          r := Ok(None);
        case Some(Occupied(b)) =>
          OldPut(buckets[..], contents, i, b, v);
          CountPut(buckets[..], b, (i, v));
          r := Ok(Some(buckets[b].value.1));
          buckets[b] := Some((i, v));
          assert buckets[..] == old(buckets[..])[b := Some((i, v))];
          assert contents[i := v].Keys == contents.Keys;
      }
      contents := contents[i := v];
    }
  }

  datatype Full = Full

  /** Putting a new index into the free bucket that the search for it has found. */
  lemma {:induction false} NewPut<V(!new)>(bs: seq<Option<(nat, V)>>, m: map<nat, V>, i: nat, o: nat, v: V)
    requires Holds(bs, m) && i !in m && o < |bs| && bs[Probe(i, o, |bs|)] == None && forall p: nat :: p < o ==> OtherAt(bs, i, p)
    ensures Holds(bs[Probe(i, o, |bs|) := Some((i, v))], m[i := v])
  {
    hide Probe;
    var n := |bs|;
    var b, m' := Probe(i, o, n), m[i := v];
    var cs := bs[b := Some((i, v))];
    assert Placed(cs, i, o, v) by {
      forall p: nat | p < o ensures OtherAt(cs, i, p) {
        assert OtherAt(bs, i, p);
      }
    }
    forall j: nat | j in m' && j != i ensures exists q: nat :: Placed(cs, j, q, m'[j]) {
      var q: nat :| Placed(bs, j, q, m[j]);
      PlacedStays(bs, j, q, m[j], b, (i, v));
    }
  }

  lemma {:induction false} PlacedStays<V>(bs: seq<Option<(nat, V)>>, j: nat, q: nat, w: V, b: nat, x: (nat, V))
    requires Placed(bs, j, q, w) && b < |bs| && x.0 != j && Probe(j, q, |bs|) != b
    ensures Placed(bs[b := Some(x)], j, q, w)
  {
    hide Probe;
    var cs := bs[b := Some(x)];
    forall p: nat | p < q ensures OtherAt(cs, j, p) {
      assert OtherAt(bs, j, p);
    }
  }

  /** Replacing the value of an index. */
  lemma {:induction false} OldPut<V(!new)>(bs: seq<Option<(nat, V)>>, m: map<nat, V>, i: nat, b: nat, v: V)
    requires Holds(bs, m) && i in m && b < |bs| && bs[b] == Some((i, m[i]))
    ensures Holds(bs[b := Some((i, v))], m[i := v])
  {
    hide Probe;
    var cs, m' := bs[b := Some((i, v))], m[i := v];
    forall j: nat | j in m' ensures exists q: nat :: Placed(cs, j, q, m'[j]) {
      var q: nat :| Placed(bs, j, q, m[j]);
      if j == i {
        assert Placed(cs, i, q, v) by {
          forall p: nat | p < q ensures OtherAt(cs, i, p) {
            assert OtherAt(bs, i, p);
          }
        }
      } else {
        PlacedStays(bs, j, q, m[j], b, (i, v));
      }
    }
  }

  lemma {:induction false} NoneUsed<V>(bs: seq<Option<(nat, V)>>)
    requires forall b :: 0 <= b < |bs| ==> bs[b] == None
    ensures Count(bs) == 0
  {
    if bs != [] {
      NoneUsed(bs[..|bs| - 1]);
    }
  }

  /** The search for an index that is there comes to no free bucket before it. */
  lemma {:induction false} PresentAt<V(!new)>(bs: seq<Option<(nat, V)>>, m: map<nat, V>, i: nat, o: nat)
    requires Holds(bs, m) && i in m && o <= |bs| && forall p: nat :: p < o ==> OtherAt(bs, i, p)
    ensures o < |bs| && bs[Probe(i, o, |bs|)].Some?
  {
    hide Probe;
    var q: nat :| Placed(bs, i, q, m[i]);
    assert q < o ==> OtherAt(bs, i, q);
    assert o < q ==> OtherAt(bs, i, o);
  }

  lemma {:induction false} AllOthers<V(!new)>(bs: seq<Option<(nat, V)>>, m: map<nat, V>, i: nat)
    requires Holds(bs, m) && forall p: nat :: p < |bs| ==> OtherAt(bs, i, p)
    ensures i !in m && forall b :: 0 <= b < |bs| ==> bs[b].Some?
  {
    hide Probe;
    if i in m {
      PresentAt(bs, m, i, |bs|);
    }
    forall b: nat | b < |bs| ensures bs[b].Some? {
      var o := ProbeReaches(i, b, |bs|);
      assert OtherAt(bs, i, o);
    }
  }
}
