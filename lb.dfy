/** The lattice-Boltzmann engine's per-timestep scheduling: the halo
    requests it posts, the visitor calls it makes over the site partitions,
    the halo copy-in, the initial-condition fill and the buffer swap. The
    physics inside the visitors is not modelled; each visitor call is
    recorded with the range it was given and the buffers it found. */
module Lb {
  import opened Collisions
  import opened Partitions
  import opened Comms
  import opened Populations

  /** A population value (distribn_t). */
  type Distribn = real

  /** The relaxation parameter block (LbmParameters). */
  datatype LbmParameters = LbmParameters(tau: real, omega: real, stressParameter: real, beta: real)

  /** One call of the collision operator's Reset: the parameter block it was
      handed and the contents of both buffers at the moment of the call. */
  datatype OperatorReset = OperatorReset(params: LbmParameters, fOld: seq<Distribn>, fNew: seq<Distribn>)

  /** The contents of both buffers as one visitor call found them. */
  datatype BufferState = BufferState(fOld: seq<Distribn>, fNew: seq<Distribn>)

  /** `n` visitor calls that all found the buffers in state `b`. */
  function Repeat(b: BufferState, n: nat): seq<BufferState>
  {
    seq(n, _ => b)
  }

  /** The lattice data the engine drives: the two population buffers and the
      per-type site counts of the inner and inter partitions. */
  class LatticeData {
    var fOld: array<Distribn>
    var fNew: array<Distribn>
    const innerCollisionCounts: seq<nat>
    const interCollisionCounts: seq<nat>
    const innerSiteCount: nat
    const localFluidSiteCount: nat

    /** Two distinct buffers of one length holding every local fluid site's
        15 populations, and six counts per locality. */
    ghost predicate Valid()
      reads this
    {
      && fOld != fNew
      && fOld.Length == fNew.Length
      && localFluidSiteCount * NUMVECTORS <= fOld.Length
      && |innerCollisionCounts| == COLLISION_TYPES
      && |interCollisionCounts| == COLLISION_TYPES
    }

    constructor (fOld: array<Distribn>, fNew: array<Distribn>, innerCollisionCounts: seq<nat>,
                 interCollisionCounts: seq<nat>, innerSiteCount: nat, localFluidSiteCount: nat)
      requires fOld != fNew && fOld.Length == fNew.Length
      requires localFluidSiteCount * NUMVECTORS <= fOld.Length
      requires |innerCollisionCounts| == COLLISION_TYPES && |interCollisionCounts| == COLLISION_TYPES
      ensures Valid()
      ensures this.fOld == fOld && this.fNew == fNew
      ensures this.innerCollisionCounts == innerCollisionCounts && this.interCollisionCounts == interCollisionCounts
      ensures this.innerSiteCount == innerSiteCount && this.localFluidSiteCount == localFluidSiteCount
    {
      this.fOld := fOld;
      this.fNew := fNew;
      this.innerCollisionCounts := innerCollisionCounts;
      this.interCollisionCounts := interCollisionCounts;
      this.innerSiteCount := innerSiteCount;
      this.localFluidSiteCount := localFluidSiteCount;
    }

    /** Exchanges the roles of the two buffers; their contents stay put. */
    method SwapOldAndNew()
      requires Valid()
      modifies this
      ensures Valid()
      ensures fOld == old(fNew) && fNew == old(fOld)
    {
      fOld, fNew := fNew, fOld;
    }
  }

  /** The engine (LBM): the lattice data, the topology it was set up with,
      the received-population translator, the parameter block, and the
      record of the visitor calls (with the buffer contents each call
      found), halo requests and collision-operator resets it has issued. */
  class LBM {
    const latDat: LatticeData
    const topology: Topology
    const receivedFTranslator: seq<nat>
    var params: LbmParameters
    var visits: seq<Visit>
    var visitInputs: seq<BufferState>
    var requests: seq<Request>
    var operatorResets: seq<OperatorReset>

    /** The lattice data is valid and every halo copy stays inside the
        buffers. */
    ghost predicate Valid()
      reads this, latDat
    {
      && latDat.Valid()
      && HaloInBounds(topology, receivedFTranslator, latDat.fOld.Length)
    }

    /** Where the halo copy reads from: the first neighbour's shared block. */
    function FirstSharedF(): nat
    {
      if |topology.neighbouringProcs| > 0 then topology.neighbouringProcs[0].firstSharedF else 0
    }

    /** Sets up the engine over `latDat` and writes the uniform equilibrium
        `feq` into both buffers (Initialise). */
    constructor (latDat: LatticeData, topology: Topology, receivedFTranslator: seq<nat>,
                 params: LbmParameters, feq: seq<Distribn>)
      requires latDat.Valid() && HaloInBounds(topology, receivedFTranslator, latDat.fOld.Length)
      requires |feq| == NUMVECTORS
      modifies latDat.fOld, latDat.fNew
      ensures Valid()
      ensures this.latDat == latDat && this.topology == topology && this.receivedFTranslator == receivedFTranslator
      ensures this.params == params && visits == [] && visitInputs == [] && requests == [] && operatorResets == []
      ensures latDat.fOld[..] == UniformFill(old(latDat.fOld[..]), feq, latDat.localFluidSiteCount)
      ensures latDat.fNew[..] == UniformFill(old(latDat.fNew[..]), feq, latDat.localFluidSiteCount)
    {
      this.latDat := latDat;
      this.topology := topology;
      this.receivedFTranslator := receivedFTranslator;
      this.params := params;
      visits := [];
      visitInputs := [];
      requests := [];
      operatorResets := [];
      new;
      SetInitialConditions(feq);
    }

    /** Writes the equilibrium vector `feq` into all 15 slots of every local
        fluid site, in both buffers; slots beyond the fluid sites are left
        alone. */
    method SetInitialConditions(feq: seq<Distribn>)
      requires Valid() && |feq| == NUMVECTORS
      modifies latDat.fOld, latDat.fNew
      ensures Valid()
      ensures latDat.fOld[..] == UniformFill(old(latDat.fOld[..]), feq, latDat.localFluidSiteCount)
      ensures latDat.fNew[..] == UniformFill(old(latDat.fNew[..]), feq, latDat.localFluidSiteCount)
    {
      var fOld, fNew := latDat.fOld, latDat.fNew;
      var n := latDat.localFluidSiteCount;
      var i := 0;
      while i < n
        invariant 0 <= i <= n
        invariant forall j :: 0 <= j < i * NUMVECTORS ==> fOld[j] == feq[j % NUMVECTORS] && fNew[j] == feq[j % NUMVECTORS]
        invariant forall j :: i * NUMVECTORS <= j < fOld.Length ==> fOld[j] == old(fOld[j]) && fNew[j] == old(fNew[j])
      {
        var l := 0;
        while l < NUMVECTORS
          invariant 0 <= l <= NUMVECTORS
          invariant forall j :: 0 <= j < i * NUMVECTORS + l ==> fOld[j] == feq[j % NUMVECTORS] && fNew[j] == feq[j % NUMVECTORS]
          invariant forall j :: i * NUMVECTORS + l <= j < fOld.Length ==> fOld[j] == old(fOld[j]) && fNew[j] == old(fNew[j])
        {
          fOld[i * NUMVECTORS + l] := feq[l];
          fNew[i * NUMVECTORS + l] := feq[l];
          l := l + 1;
        }
        i := i + 1;
      }
    }

    /** Posts, for each neighbour in list order, a receive into its shared
        block of the old buffer and a send from its shared block of the new
        buffer. */
    method RequestComms()
      requires Valid()
      modifies this`requests
      ensures Valid()
      ensures requests == old(requests) + PostedRequests(topology.neighbouringProcs)
    {
      var procs := topology.neighbouringProcs;
      var k := 0;
      while k < |procs|
        invariant 0 <= k <= |procs|
        invariant requests == old(requests) + PostedRequests(procs[..k])
      {
        assert procs[..k + 1][..k] == procs[..k];
        requests := requests + [ReceiveFrom(procs[k]), SendTo(procs[k])];
        k := k + 1;
      }
      assert procs[..k] == procs;
    }

    /** Hands `visitor` to the six collision objects in type order, each
        with the next `counts[t]` sites from a running offset that starts at
        `offset`; returns where the offset ends. Every call is handed the
        lattice data as it stands; the visitors' own writes to the buffers
        are not modelled. */
    method VisitPartitions(visitor: VisitorKind, isRendering: bool, counts: seq<nat>, offset: nat) returns (end: nat)
      requires |counts| == COLLISION_TYPES
      modifies this`visits, this`visitInputs
      ensures visits == old(visits) + PartitionVisits(visitor, isRendering, counts, offset)
      ensures visitInputs == old(visitInputs) + Repeat(BufferState(latDat.fOld[..], latDat.fNew[..]), COLLISION_TYPES)
      ensures end == offset + Sum(counts)
    {
      var state := BufferState(latDat.fOld[..], latDat.fNew[..]);
      var current := offset;
      var t := 0;
      while t < COLLISION_TYPES
        invariant 0 <= t <= COLLISION_TYPES
        invariant current == offset + Sum(counts[..t])
        invariant visits == old(visits) + PartitionVisits(visitor, isRendering, counts, offset)[..t]
        invariant visitInputs == old(visitInputs) + Repeat(state, t)
      {
        var collision := GetCollision(t);
        visits := visits + [Visit(visitor, isRendering, collision.value, SiteRange(current, counts[t]))];
        visitInputs := visitInputs + [state];
        assert Repeat(state, t) + [state] == Repeat(state, t + 1);
        SumSnoc(counts, t);
        current := current + counts[t];
        t := t + 1;
      }
      assert counts[..COLLISION_TYPES] == counts;
      end := current;
    }

    /** Stream-and-collide over the inter partitions, starting at the inner
        site count. */
    method PreSend(isRendering: bool)
      requires Valid()
      modifies this`visits, this`visitInputs
      ensures Valid()
      ensures visits == old(visits) + PartitionVisits(StreamAndCollide, isRendering, latDat.interCollisionCounts, latDat.innerSiteCount)
      ensures visitInputs == old(visitInputs) + Repeat(BufferState(latDat.fOld[..], latDat.fNew[..]), COLLISION_TYPES)
    {
      var _ := VisitPartitions(StreamAndCollide, isRendering, latDat.interCollisionCounts, latDat.innerSiteCount);
    }

    /** Stream-and-collide over the inner partitions, starting at site 0. */
    method PreReceive(isRendering: bool)
      requires Valid()
      modifies this`visits, this`visitInputs
      ensures Valid()
      ensures visits == old(visits) + PartitionVisits(StreamAndCollide, isRendering, latDat.innerCollisionCounts, 0)
      ensures visitInputs == old(visitInputs) + Repeat(BufferState(latDat.fOld[..], latDat.fNew[..]), COLLISION_TYPES)
    {
      var _ := VisitPartitions(StreamAndCollide, isRendering, latDat.innerCollisionCounts, 0);
    }

    /** Copies each received population into its place in the new buffer
        and runs post-step over the inner partitions and the inter partitions
        with one offset carried across both. Every post-step call finds the
        copy-in complete. The old buffer is not written. */
    method PostReceive(isRendering: bool)
      requires Valid()
      modifies this`visits, this`visitInputs, latDat.fNew
      ensures Valid()
      ensures latDat.fOld[..] == old(latDat.fOld[..])
      ensures latDat.fNew[..] == CopyReceived(old(latDat.fNew[..]), latDat.fOld[..], receivedFTranslator, FirstSharedF(), topology.totalSharedFs)
      ensures visits == old(visits)
                        + PartitionVisits(PostStep, isRendering, latDat.innerCollisionCounts, 0)
                        + PartitionVisits(PostStep, isRendering, latDat.interCollisionCounts, Sum(latDat.innerCollisionCounts))
      ensures visitInputs == old(visitInputs)
                             + Repeat(BufferState(latDat.fOld[..], CopyReceived(old(latDat.fNew[..]), latDat.fOld[..], receivedFTranslator, FirstSharedF(), topology.totalSharedFs)),
                                         2 * COLLISION_TYPES)
    {
      var fOld, fNew := latDat.fOld, latDat.fNew;
      var i := 0;
      while i < topology.totalSharedFs
        invariant 0 <= i <= topology.totalSharedFs
        invariant fNew[..] == CopyReceived(old(fNew[..]), fOld[..], receivedFTranslator, FirstSharedF(), i)
        invariant visits == old(visits) && visitInputs == old(visitInputs)
      {
        fNew[receivedFTranslator[i]] := fOld[topology.neighbouringProcs[0].firstSharedF + i];
        i := i + 1;
      }
      var state := BufferState(fOld[..], fNew[..]);
      var offset := VisitPartitions(PostStep, isRendering, latDat.innerCollisionCounts, 0);
      offset := VisitPartitions(PostStep, isRendering, latDat.interCollisionCounts, offset);
      assert Repeat(state, COLLISION_TYPES) + Repeat(state, COLLISION_TYPES) == Repeat(state, 2 * COLLISION_TYPES);
    }

    /** Swaps the buffers for the next timestep: what was written as new
        becomes the next step's old, and the other way round. */
    method EndIteration()
      requires Valid()
      modifies latDat
      ensures Valid()
      ensures latDat.fOld == old(latDat.fNew) && latDat.fNew == old(latDat.fOld)
      ensures latDat.fOld[..] == old(latDat.fNew[..]) && latDat.fNew[..] == old(latDat.fOld[..])
    {
      latDat.SwapOldAndNew();
    }

    /** The sites whose populations the inlet-velocity update reads, in
        order: the inner inlet block and then the inter inlet block. These
        are the ranges that PreReceive and PreSend hand to the inlet object. */
    method UpdateInletVelocities() returns (sites: seq<nat>)
      requires Valid()
      ensures sites == RangeSites(PartitionRange(latDat.innerCollisionCounts, 0, CollisionIndex(Inlet)))
                     + RangeSites(PartitionRange(latDat.interCollisionCounts, latDat.innerSiteCount, CollisionIndex(Inlet)))
      ensures forall s :: s in sites <==>
                PartitionRange(latDat.innerCollisionCounts, 0, CollisionIndex(Inlet)).Contains(s) ||
                PartitionRange(latDat.interCollisionCounts, latDat.innerSiteCount, CollisionIndex(Inlet)).Contains(s)
    {
      var inner, inter := latDat.innerCollisionCounts, latDat.interCollisionCounts;
      InletRangeOffsets(inner, 0);
      InletRangeOffsets(inter, latDat.innerSiteCount);
      sites := [];
      var offset := inner[0] + inner[1];
      var i := offset;
      while i < offset + inner[2]
        invariant offset <= i <= offset + inner[2]
        invariant sites == RangeSites(SiteRange(offset, i - offset))
      {
        sites := sites + [i];
        i := i + 1;
      }
      ghost var innerSites := sites;
      offset := latDat.innerSiteCount + inter[0] + inter[1];
      i := offset;
      while i < offset + inter[2]
        invariant offset <= i <= offset + inter[2]
        invariant sites == innerSites + RangeSites(SiteRange(offset, i - offset))
      {
        sites := sites + [i];
        i := i + 1;
      }
      forall s
        ensures s in sites <==>
                  (SiteRange(inner[0] + inner[1], inner[2]).Contains(s) || SiteRange(offset, inter[2]).Contains(s))
      {
        if SiteRange(inner[0] + inner[1], inner[2]).Contains(s) {
          assert innerSites[s - (inner[0] + inner[1])] == s;
        } else if SiteRange(offset, inter[2]).Contains(s) {
          assert sites[|innerSites| + (s - offset)] == s;
        }
      }
    }

    /** Instability recovery: installs the recomputed parameter block,
        re-initialises both buffers to the uniform equilibrium `feq`, and then
        resets the collision operator, which sees the new parameters and the
        refilled buffers. */
    method Reset(recalculated: LbmParameters, feq: seq<Distribn>)
      requires Valid() && |feq| == NUMVECTORS
      modifies this`params, this`operatorResets, latDat.fOld, latDat.fNew
      ensures Valid()
      ensures params == recalculated
      ensures latDat.fOld[..] == UniformFill(old(latDat.fOld[..]), feq, latDat.localFluidSiteCount)
      ensures latDat.fNew[..] == UniformFill(old(latDat.fNew[..]), feq, latDat.localFluidSiteCount)
      ensures operatorResets == old(operatorResets) +
                [OperatorReset(recalculated,
                               UniformFill(old(latDat.fOld[..]), feq, latDat.localFluidSiteCount),
                               UniformFill(old(latDat.fNew[..]), feq, latDat.localFluidSiteCount))]
    {
      params := recalculated;
      SetInitialConditions(feq);
      operatorResets := operatorResets + [OperatorReset(params, latDat.fOld[..], latDat.fNew[..])];
    }
  }

  /** Every copy of the halo copy-in stays inside buffers of `length` slots:
      the translator has an entry per shared population, each naming a slot,
      and the received block starts at the first neighbour's FirstSharedF. */
  ghost predicate HaloInBounds(topology: Topology, translator: seq<nat>, length: nat)
  {
    && topology.totalSharedFs <= |translator|
    && (topology.totalSharedFs > 0 ==>
          |topology.neighbouringProcs| > 0 &&
          topology.neighbouringProcs[0].firstSharedF + topology.totalSharedFs <= length)
    && forall i :: 0 <= i < topology.totalSharedFs ==> translator[i] < length
  }
}
