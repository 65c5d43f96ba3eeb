# Lattice-Boltzmann engine: per-timestep scheduling and buffer bookkeeping

This project models the orchestration part of HemeLB's lattice-Boltzmann
engine (`LBM` in `Code/lb/lb.cc`), with the fluid physics taken out. One
timestep goes RequestComms → PreSend → PreReceive → PostReceive →
EndIteration. The model covers what the engine does with indices and buffers
in that sequence:

- which collision object handles each of the six site classifications
  (mid-fluid, wall, inlet, outlet, inlet-wall, outlet-wall);
- the half-open site range that each visitor call gets. A running offset
  walks the inner partitions (sites with no cross-process neighbour) and the
  inter partitions (sites with one);
- the halo requests posted to the neighbouring processes;
- the copy of received populations into the new buffer, done through the
  translation table;
- the uniform equilibrium fill of both buffers, and the buffer swap.

Modules, one per concern:

- `Collisions` (collisions.dfy): the six collision types and `GetCollision`.
- `Partitions` (partitions.dfy): `PartitionVisits`, the calls one traversal
  makes, and the lemmas that its ranges tile the sites.
- `Comms` (comms.dfy): neighbour records, `PostedRequests`, and the link
  between posted receives and the sites the copy-in reads.
- `Populations` (populations.dfy): `CopyReceived` and `UniformFill`, the
  array effects written as functions on sequences, with their lemmas.
- `Lb` (lb.dfy): the classes `LatticeData` (two `array<real>` buffers and the
  per-type counts) and `LBM` (the engine). Each method is proved against the
  functions above.

The collision objects' visitor calls and the transport's requests are
external calls. The engine records them in the fields `visits` and
`requests`. Beside each visitor call, `visitInputs` records the contents of
both buffers at the moment of the call. The visitors' own writes to the
buffers are not modelled, so these are the buffers as the engine's own code
left them. `IsRendering()` becomes a method parameter. The process-topology
singleton becomes a constant field fixed when the engine is set up.

Two facts the engine relies on are not enforced by code in `lb.cc`, so the
lemmas take them as hypotheses:

- The inner site count equals the sum of the inner per-type counts. PreSend
  starts at `GetInnerSiteCount()`, while PostReceive's inter loop starts
  where its inner loop ended.
- The neighbours' shared blocks lie next to each other. The copy-in reads the
  whole halo as one block starting at the first neighbour's `FirstSharedF`.

## Model

| member | source | states |
|---|---|---|
| Collisions.GetCollision | Code/lb/lb.cc:138-156 | returns an object exactly for indices 0..5 and NULL (None) for every other index |
| Collisions.CollisionIndex | Code/lb/lb.cc:138-156 | each of the six objects has an index below 6 at which GetCollision returns it |
| Collisions.CollisionAt | Code/lb/lb.cc:138-156 | the object returned for a valid index t is the one whose index is t |
| Collisions.GetCollisionInjective | Code/lb/lb.cc:138-156 | the six objects are pairwise distinct: two indices that return the same object are the same index |
| Collisions.GetCollisionBijective | Code/lb/lb.cc:138-156 | GetCollision(i) is object c exactly when i is c's index |
| Partitions.PartitionVisitsContiguous | Code/lb/lb.cc:178-193 | a traversal's first range starts at its offset, each range starts where the previous one ended, and the last ends at offset plus the sum of the counts |
| Partitions.PartitionVisitsTile | Code/lb/lb.cc:195-210 | a traversal makes six calls in type order, each with its type's count; the ranges are ordered, do not overlap, and cover [offset, offset + sum) |
| Partitions.TilesExactlyOnce | Code/lb/lb.cc:199-209 | in a tiling, each site of the interval lies in exactly one call's range, and no range holds a site outside the interval |
| Partitions.TilesConcat | Code/lb/lb.cc:225-249 | tilings of two adjacent intervals, run one after the other, tile their union |
| Partitions.StreamAndCollideTilesLocalSites | Code/lb/lb.cc:178-210 | if the inner site count is the sum of the inner counts, the inner and inter stream-and-collide calls together visit every site in [0, innerSiteCount + sum of inter counts) exactly once |
| Partitions.PostStepRevisitsStreamedRanges | Code/lb/lb.cc:225-249 | PostReceive makes 12 post-step calls; under the same hypothesis, call k gets the range and object of PreReceive call k, call 6+k those of PreSend call k, and the 12 tile the local sites |
| Partitions.InletRangeOffsets | Code/lb/lb.cc:267-298 | the inlet range (type 2) of a traversal starting at offset is [offset + c0 + c1, offset + c0 + c1 + c2), the offsets UpdateInletVelocities computes |
| Comms.PostedRequestsShape | Code/lb/lb.cc:162-175 | there are 2n requests for n neighbours; request 2k is the receive into FOld from neighbour k and request 2k+1 the send from FNew to it, both at FirstSharedF with SharedFCount elements to its Rank; with no neighbours none are posted |
| Comms.CopySourcesWereReceived | Code/lb/lb.cc:218-222 | if the shared blocks lie next to each other and TotalSharedFs is their sum, every old-buffer slot the copy-in reads is inside a receive posted into FOld |
| Populations.CopyReceivedUntouched | Code/lb/lb.cc:218-222 | a new-buffer slot that no translator entry names keeps its value |
| Populations.CopyReceivedLastWriteWins | Code/lb/lb.cc:218-222 | slot translator[i] holds old slot FirstSharedF + i unless a later entry names the same slot |
| Populations.CopyReceivedInjective | Code/lb/lb.cc:218-222 | with a duplicate-free translator, each received value lands at translator[i] and every other slot is unchanged |
| Populations.UniformFillSite | Code/lb/lb.cc:123-134 | direction l of every filled site i holds feq[l], the same vector for every site |
| Populations.UniformFillBeyond | Code/lb/lb.cc:123-134 | slots at or beyond localFluidSiteCount * 15 are untouched |
| Lb.LatticeData.SwapOldAndNew | Code/lb/lb.cc:255 | the two buffer references are exchanged |
| Lb.LBM.constructor | Code/lb/lb.cc:84-108 | stores the translator, starts with empty records, and fills both buffers with the equilibrium |
| Lb.LBM.SetInitialConditions | Code/lb/lb.cc:110-135 | both buffers become UniformFill of their old contents with feq over the local fluid sites; the engine stays valid |
| Lb.LBM.RequestComms | Code/lb/lb.cc:158-176 | appends exactly PostedRequests of the neighbour list to the request record |
| Lb.LBM.VisitPartitions | Code/lb/lb.cc:182-192 | appends the six calls of PartitionVisits from the given offset, each handed the buffers as the engine's own code left them (visitor writes not modelled), and returns offset + sum of the counts |
| Lb.LBM.PreSend | Code/lb/lb.cc:178-193 | appends the stream-and-collide traversal of the inter counts starting at innerSiteCount; all six calls see the buffers as the engine's own code left them on entry (visitor writes not modelled) |
| Lb.LBM.PreReceive | Code/lb/lb.cc:195-210 | appends the stream-and-collide traversal of the inner counts starting at 0; all six calls see the buffers as the engine's own code left them on entry (visitor writes not modelled) |
| Lb.LBM.PostReceive | Code/lb/lb.cc:212-250 | the copy-in makes the new buffer CopyReceived of its old contents (a no-op when TotalSharedFs = 0) and does not write the old buffer; it appends the post-step traversal of the inner counts from 0 and of the inter counts from their sum, and each of those 12 calls is handed the new buffer with the copy-in already complete (visitor writes not modelled, so the buffers stay at that state) |
| Lb.LBM.EndIteration | Code/lb/lb.cc:252-256 | the next step's old buffer is this step's new buffer, and vice versa, contents included |
| Lb.LBM.UpdateInletVelocities | Code/lb/lb.cc:259-323 | visits, in order, the sites of the inner inlet range and then of the inter inlet range, which are the ranges PreReceive and PreSend pass to the inlet object, and no other site |
| Lb.LBM.Reset | Code/lb/lb.cc:328-335 | installs the recomputed parameters, refills both buffers with the equilibrium, then resets the collision operator, recording that it saw the new parameters and the refilled buffers |

## Left out

- RecalculateTauViscosityOmega (Code/lb/lb.cc:16-24): floating-point formulas using `sqrt`. Reset takes the recomputed parameter block as an input.
- GetLbmParams (Code/lb/lb.cc:26-29): returns a pointer to the parameter block. There is nothing to prove about it.
- The LBM constructor's parameter reading and CalculateMouseFlowField (Code/lb/lb.cc:31-55): configuration loading and unit conversion.
- InitCollisions and ~LBM (Code/lb/lb.cc:57-82, 337-359): allocation and deallocation. The six collision objects are values of `CollisionType`.
- Lb.LBM.constructor: models only the parts of Initialise that store the translator and call SetInitialConditions. The unit converter, the boundary density pointers, the collision operator and the visualisation control are not modelled.
- Lb.LBM.SetInitialConditions: the density averaged over the outlets, including its division by `outlets`, and D3Q15::CalculateFeq are floating point. The equilibrium vector `feq` is an input. The source recomputes it per site from the same density, and that pure computation gives the same vector each time.
- Lb.LBM.UpdateInletVelocities: models only which sites the update reads. The density, velocity, normal projection and `sqrt` are not modelled. The `time_step` argument is not used by the source and is dropped. `velocity` (Code/lb/lb.cc:283-292, 312-321) is a local that is never stored, so the model records only which sites are read.
- Lb.LBM.Reset: the collision operator's own Reset body is not part of these files. The model records only that the reset happened, the parameters it received and the buffer contents it saw.
- The visitor bodies (AcceptCollisionVisitor, StreamAndCollide, PostStep) are not part of these files. They appear only through the ranges they receive (`visits`) and the buffer contents they are handed (`visitInputs`).
- Lb.LBM.VisitPartitions, PreSend, PreReceive, PostReceive: the visitor calls are modelled as writing neither buffer, although the source hands each call the mutable lattice data (Code/lb/lb.cc:189, 206, 234, 246) and stream-and-collide writes populations. As a result, `visitInputs` records the buffers as the engine's own code left them, not what earlier visitor calls in the same traversal wrote. PostReceive's final new buffer equals CopyReceived only under this assumption. What the model does pin is the engine's own order: every post-step call comes after the copy-in.
- MPI transport: RequestReceive and RequestSend are recorded as `Request` values. Code/lb/boundaries/BoundaryComms.h only declares MPI requests. Code/lb/collisions/CollisionOperator.h is an empty class.
- The widths of `site_t` and `size_t`, and the narrowing `(int)` casts of `SharedFCount` in the receive and send calls (Code/lb/lb.cc:167, 172): offsets and counts are unbounded naturals, so overflow of the running offset is not modelled and a request's count is recorded as `SharedFCount` itself.
- Bounds safety of the raw pointers: the array bounds the C++ code assumes are stated as invariants of `LatticeData` and `LBM`.
