/** Traversal of the site partitions. Sites are numbered so that each
    classification occupies one contiguous block, inner blocks (no
    cross-process dependency) before inter blocks; a traversal hands each of
    the six collision objects, in type order, the half-open range that starts
    where the previous one ended. */
module Partitions {
  import opened Collisions

  /** A half-open range of site indices [start, start + count). */
  datatype SiteRange = SiteRange(start: nat, count: nat) {
    function End(): nat { start + count }
    predicate Contains(s: int) { start <= s < start + count }
  }

  /** The two visitors the engine applies: stream-and-collide and post-step. */
  datatype VisitorKind = StreamAndCollide | PostStep

  /** One call of AcceptCollisionVisitor: which visitor, the rendering flag it
      was given, the collision object that received it and the site range. */
  datatype Visit = Visit(visitor: VisitorKind, isRendering: bool, collision: CollisionType, range: SiteRange)

  /** Sum of a sequence of site counts. */
  function Sum(counts: seq<nat>): nat
  {
    if |counts| == 0 then 0 else Sum(counts[..|counts| - 1]) + counts[|counts| - 1]
  }

  lemma SumSnoc(counts: seq<nat>, k: nat)
    requires k < |counts|
    ensures Sum(counts[..k + 1]) == Sum(counts[..k]) + counts[k]
  {
    assert counts[..k + 1][..k] == counts[..k];
  }

  lemma {:induction false} SumPrefixMonotone(counts: seq<nat>, j: nat, k: nat)
    requires j <= k <= |counts|
    ensures Sum(counts[..j]) <= Sum(counts[..k])
  {
    if j < k {
      SumPrefixMonotone(counts, j, k - 1);
      SumSnoc(counts, k - 1);
    }
  }

  /** Every site below the total lies in the block of some index. */
  lemma {:induction false} PrefixOwner(counts: seq<nat>, s: int)
    requires 0 <= s < Sum(counts)
    ensures exists k :: 0 <= k < |counts| && Sum(counts[..k]) <= s < Sum(counts[..k]) + counts[k]
  {
    var n := |counts|;
    assert n > 0;
    assert counts[..n] == counts;
    SumSnoc(counts, n - 1);
    if s < Sum(counts[..n - 1]) {
      var init := counts[..n - 1];
      PrefixOwner(init, s);
      var k :| 0 <= k < |init| && Sum(init[..k]) <= s < Sum(init[..k]) + init[k];
      assert init[..k] == counts[..k];
    } else {
      assert Sum(counts[..n - 1]) <= s < Sum(counts[..n - 1]) + counts[n - 1];
    }
  }

  /** The range handed to collision type `t` by a traversal that starts at
      `offset`: it begins after the blocks of all types before `t`. */
  function PartitionRange(counts: seq<nat>, offset: nat, t: nat): SiteRange
    requires |counts| == COLLISION_TYPES && t < COLLISION_TYPES
  {
    SiteRange(offset + Sum(counts[..t]), counts[t])
  }

  /** The six visitor calls of one traversal, in type order 0..5. */
  function PartitionVisits(visitor: VisitorKind, isRendering: bool, counts: seq<nat>, offset: nat): (vs: seq<Visit>)
    requires |counts| == COLLISION_TYPES
    ensures |vs| == COLLISION_TYPES
  {
    seq(COLLISION_TYPES, k requires 0 <= k < COLLISION_TYPES =>
      Visit(visitor, isRendering, CollisionAt(k), PartitionRange(counts, offset, k)))
  }

  /** The ranges are in increasing order and pairwise disjoint. */
  ghost predicate Ordered(vs: seq<Visit>)
  {
    forall j, k :: 0 <= j < k < |vs| ==> vs[j].range.End() <= vs[k].range.start
  }

  /** Every range lies inside [lo, hi). */
  ghost predicate Within(vs: seq<Visit>, lo: int, hi: int)
  {
    forall k :: 0 <= k < |vs| ==> lo <= vs[k].range.start && vs[k].range.End() <= hi
  }

  /** Site `s` lies in the range of some visit. */
  ghost predicate Visited(vs: seq<Visit>, s: int)
  {
    exists k :: 0 <= k < |vs| && vs[k].range.Contains(s)
  }

  /** The visits tile [lo, hi): in order, without overlap, inside the
      interval, and with no site of the interval left out. */
  ghost predicate Tiles(vs: seq<Visit>, lo: int, hi: int)
  {
    Ordered(vs) && Within(vs, lo, hi) && forall s :: lo <= s < hi ==> Visited(vs, s)
  }

  /** In a tiling, each site of the interval is visited by exactly one call,
      and no call visits a site outside it. */
  lemma TilesExactlyOnce(vs: seq<Visit>, lo: int, hi: int, s: int)
    requires Tiles(vs, lo, hi)
    ensures lo <= s < hi <==> Visited(vs, s)
    ensures lo <= s < hi ==>
              exists k :: 0 <= k < |vs| && vs[k].range.Contains(s) &&
                (forall j :: 0 <= j < |vs| && vs[j].range.Contains(s) ==> j == k)
  {
    if lo <= s < hi {
      assert Visited(vs, s);
      var k :| 0 <= k < |vs| && vs[k].range.Contains(s);
      assert forall j :: 0 <= j < |vs| && vs[j].range.Contains(s) ==> j == k;
    }
  }

  /** Consecutive visits of a traversal abut: the first starts at the
      traversal's offset, each later one where the previous ended, and the
      last ends at the offset plus the sum of all counts. */
  lemma PartitionVisitsContiguous(visitor: VisitorKind, isRendering: bool, counts: seq<nat>, offset: nat)
    requires |counts| == COLLISION_TYPES
    ensures var vs := PartitionVisits(visitor, isRendering, counts, offset);
      && vs[0].range.start == offset
      && (forall k :: 0 <= k < COLLISION_TYPES - 1 ==> vs[k + 1].range.start == vs[k].range.End())
      && vs[COLLISION_TYPES - 1].range.End() == offset + Sum(counts)
  {
    var vs := PartitionVisits(visitor, isRendering, counts, offset);
    assert counts[..0] == [];
    forall k | 0 <= k < COLLISION_TYPES - 1
      ensures vs[k + 1].range.start == vs[k].range.End()
    {
      SumSnoc(counts, k);
    }
    SumSnoc(counts, COLLISION_TYPES - 1);
    assert counts[..COLLISION_TYPES] == counts;
  }

  /** Each traversal visits every collision type once, in type order, with
      the given visitor, and its ranges tile [offset, offset + Sum(counts)). */
  lemma {:induction false} PartitionVisitsTile(visitor: VisitorKind, isRendering: bool, counts: seq<nat>, offset: nat)
    requires |counts| == COLLISION_TYPES
    ensures var vs := PartitionVisits(visitor, isRendering, counts, offset);
      && (forall k :: 0 <= k < |vs| ==> vs[k].collision == CollisionAt(k) && vs[k].visitor == visitor && vs[k].range.count == counts[k])
      && Tiles(vs, offset, offset + Sum(counts))
  {
    var vs := PartitionVisits(visitor, isRendering, counts, offset);
    assert counts[..COLLISION_TYPES] == counts;
    forall j, k | 0 <= j < k < |vs| ensures vs[j].range.End() <= vs[k].range.start {
      SumSnoc(counts, j);
      SumPrefixMonotone(counts, j + 1, k);
    }
    forall k | 0 <= k < |vs| ensures offset <= vs[k].range.start && vs[k].range.End() <= offset + Sum(counts) {
      SumSnoc(counts, k);
      SumPrefixMonotone(counts, k + 1, COLLISION_TYPES);
    }
    forall s | offset <= s < offset + Sum(counts) ensures Visited(vs, s) {
      PrefixOwner(counts, s - offset);
      var k :| 0 <= k < |counts| && Sum(counts[..k]) <= s - offset < Sum(counts[..k]) + counts[k];
      assert vs[k].range.Contains(s);
    }
  }

  /** Two tilings of adjacent intervals, one after the other, tile their union. */
  lemma TilesConcat(a: seq<Visit>, b: seq<Visit>, lo: int, mid: int, hi: int)
    requires lo <= mid <= hi
    requires Tiles(a, lo, mid) && Tiles(b, mid, hi)
    ensures Tiles(a + b, lo, hi)
  {
    var ab := a + b;
    forall j, k | 0 <= j < k < |ab| ensures ab[j].range.End() <= ab[k].range.start {
      if k < |a| {
        assert ab[j] == a[j] && ab[k] == a[k];
      } else if j >= |a| {
        assert ab[j] == b[j - |a|] && ab[k] == b[k - |a|];
      } else {
        assert ab[j] == a[j] && ab[k] == b[k - |a|];
      }
    }
    forall k | 0 <= k < |ab| ensures lo <= ab[k].range.start && ab[k].range.End() <= hi {
      if k < |a| {
        assert ab[k] == a[k];
      } else {
        assert ab[k] == b[k - |a|];
      }
    }
    forall s | lo <= s < hi ensures Visited(ab, s) {
      if s < mid {
        assert Visited(a, s);
        var k :| 0 <= k < |a| && a[k].range.Contains(s);
        assert ab[k] == a[k];
      } else {
        assert Visited(b, s);
        var k :| 0 <= k < |b| && b[k].range.Contains(s);
        assert ab[|a| + k] == b[k];
      }
    }
  }

  /** One timestep's stream-and-collide calls (inner partitions from 0, inter
      partitions from the inner site count) together visit each local site
      exactly once, provided the inner site count is the sum of the inner
      per-type counts. */
  lemma StreamAndCollideTilesLocalSites(isRendering: bool, inner: seq<nat>, inter: seq<nat>, innerSiteCount: nat)
    requires |inner| == COLLISION_TYPES && |inter| == COLLISION_TYPES
    requires Sum(inner) == innerSiteCount
    ensures Tiles(PartitionVisits(StreamAndCollide, isRendering, inner, 0)
                  + PartitionVisits(StreamAndCollide, isRendering, inter, innerSiteCount),
                  0, innerSiteCount + Sum(inter))
  {
    PartitionVisitsTile(StreamAndCollide, isRendering, inner, 0);
    PartitionVisitsTile(StreamAndCollide, isRendering, inter, innerSiteCount);
    TilesConcat(PartitionVisits(StreamAndCollide, isRendering, inner, 0),
                PartitionVisits(StreamAndCollide, isRendering, inter, innerSiteCount),
                0, innerSiteCount, innerSiteCount + Sum(inter));
  }

  /** The post-step calls (inner then inter, one offset carried across both)
      tile the local sites, and when the inner site count is the sum of the
      inner counts, post-step call k gets exactly the range and object of
      stream-and-collide inner call k, and call 6 + k those of inter call k. */
  lemma PostStepRevisitsStreamedRanges(isRendering: bool, inner: seq<nat>, inter: seq<nat>, innerSiteCount: nat)
    requires |inner| == COLLISION_TYPES && |inter| == COLLISION_TYPES
    requires Sum(inner) == innerSiteCount
    ensures var post := PartitionVisits(PostStep, isRendering, inner, 0) + PartitionVisits(PostStep, isRendering, inter, Sum(inner));
      var preReceive := PartitionVisits(StreamAndCollide, isRendering, inner, 0);
      var preSend := PartitionVisits(StreamAndCollide, isRendering, inter, innerSiteCount);
      && |post| == 2 * COLLISION_TYPES
      && (forall k :: 0 <= k < COLLISION_TYPES ==>
            post[k].range == preReceive[k].range && post[k].collision == preReceive[k].collision &&
            post[COLLISION_TYPES + k].range == preSend[k].range && post[COLLISION_TYPES + k].collision == preSend[k].collision)
      && Tiles(post, 0, innerSiteCount + Sum(inter))
  {
    PartitionVisitsTile(PostStep, isRendering, inner, 0);
    PartitionVisitsTile(PostStep, isRendering, inter, Sum(inner));
    TilesConcat(PartitionVisits(PostStep, isRendering, inner, 0),
                PartitionVisits(PostStep, isRendering, inter, Sum(inner)),
                0, innerSiteCount, innerSiteCount + Sum(inter));
  }

  /** The inlet block (type index 2) of a traversal starting at `offset`
      begins after the mid-fluid and wall blocks. */
  lemma InletRangeOffsets(counts: seq<nat>, offset: nat)
    requires |counts| == COLLISION_TYPES
    ensures PartitionRange(counts, offset, CollisionIndex(Inlet)) == SiteRange(offset + counts[0] + counts[1], counts[2])
  {
    SumSnoc(counts, 0);
    SumSnoc(counts, 1);
    assert counts[..0] == [];
  }

  /** The sites of a range, in increasing order. */
  function RangeSites(r: SiteRange): seq<nat>
  {
    seq(r.count, j requires 0 <= j < r.count => r.start + j)
  }
}
