/** Halo-exchange bookkeeping: the neighbouring processes of this process,
    the non-blocking requests posted for them each timestep, and where the
    received populations land. The transport itself is not modelled; a
    posted request is recorded as a value. */
module Comms {

  /** A neighbouring process: its rank, how many populations it shares with
      this process, and where the shared block starts in the population
      arrays. */
  datatype NeighbouringProcessor = NeighbouringProcessor(rank: nat, sharedFCount: nat, firstSharedF: nat)

  /** The process topology as this core sees it: the neighbour list and the
      total number of shared populations. */
  datatype Topology = Topology(neighbouringProcs: seq<NeighbouringProcessor>, totalSharedFs: nat)

  datatype Direction = Receive | Send

  /** The population array a request reads from or writes into. */
  datatype Buffer = FOld | FNew

  /** One posted non-blocking request: direction, buffer, first element,
      element count and peer rank. */
  datatype Request = Request(direction: Direction, buffer: Buffer, offset: nat, count: nat, rank: nat)

  /** The receive into the old buffer's shared block of neighbour `p`. */
  function ReceiveFrom(p: NeighbouringProcessor): Request
  {
    Request(Receive, FOld, p.firstSharedF, p.sharedFCount, p.rank)
  }

  /** The send from the new buffer's shared block of neighbour `p`. */
  function SendTo(p: NeighbouringProcessor): Request
  {
    Request(Send, FNew, p.firstSharedF, p.sharedFCount, p.rank)
  }

  /** The requests posted for a neighbour list, in list order: a receive
      then a send per neighbour. */
  function PostedRequests(procs: seq<NeighbouringProcessor>): seq<Request>
  {
    if |procs| == 0 then []
    else PostedRequests(procs[..|procs| - 1]) + [ReceiveFrom(procs[|procs| - 1]), SendTo(procs[|procs| - 1])]
  }

  /** Exactly one receive and one send per neighbour, in neighbour order:
      request 2k is the receive from neighbour k and request 2k + 1 the send
      to it. With no neighbours nothing is posted. */
  lemma {:induction false} PostedRequestsShape(procs: seq<NeighbouringProcessor>)
    ensures |PostedRequests(procs)| == 2 * |procs|
    ensures forall k :: 0 <= k < |procs| ==>
              PostedRequests(procs)[2 * k] == ReceiveFrom(procs[k]) &&
              PostedRequests(procs)[2 * k + 1] == SendTo(procs[k])
  {
    if |procs| > 0 {
      var n := |procs|;
      var init := procs[..n - 1];
      PostedRequestsShape(init);
      forall k | 0 <= k < n
        ensures PostedRequests(procs)[2 * k] == ReceiveFrom(procs[k])
        ensures PostedRequests(procs)[2 * k + 1] == SendTo(procs[k])
      {
        if k < n - 1 {
          assert init[k] == procs[k];
        }
      }
    }
  }

  /** The total number of populations shared with a neighbour list. */
  function SharedTotal(procs: seq<NeighbouringProcessor>): nat
  {
    if |procs| == 0 then 0 else SharedTotal(procs[..|procs| - 1]) + procs[|procs| - 1].sharedFCount
  }

  /** The shared blocks of consecutive neighbours abut in the population
      arrays, so the whole halo is one block starting at the first
      neighbour's FirstSharedF. */
  ghost predicate ContiguousSharedRegions(procs: seq<NeighbouringProcessor>)
  {
    forall k :: 0 <= k < |procs| - 1 ==> procs[k + 1].firstSharedF == procs[k].firstSharedF + procs[k].sharedFCount
  }

  lemma {:induction false} ContiguousStart(procs: seq<NeighbouringProcessor>, k: nat)
    requires k < |procs| && ContiguousSharedRegions(procs)
    ensures procs[k].firstSharedF == procs[0].firstSharedF + SharedTotal(procs[..k])
  {
    if k > 0 {
      ContiguousStart(procs, k - 1);
      assert procs[..k][..k - 1] == procs[..k - 1];
    } else {
      assert procs[..0] == [];
    }
  }

  lemma {:induction false} HaloSlotOwner(procs: seq<NeighbouringProcessor>, i: nat)
    requires |procs| > 0 && ContiguousSharedRegions(procs) && i < SharedTotal(procs)
    ensures exists k :: 0 <= k < |procs| &&
              procs[k].firstSharedF <= procs[0].firstSharedF + i < procs[k].firstSharedF + procs[k].sharedFCount
  {
    var n := |procs|;
    var init := procs[..n - 1];
    ContiguousStart(procs, n - 1);
    if i < SharedTotal(init) {
      assert |init| > 0;
      assert ContiguousSharedRegions(init) by {
        forall k | 0 <= k < |init| - 1 ensures init[k + 1].firstSharedF == init[k].firstSharedF + init[k].sharedFCount {
          assert init[k] == procs[k] && init[k + 1] == procs[k + 1];
        }
      }
      HaloSlotOwner(init, i);
      var k :| 0 <= k < |init| && init[k].firstSharedF <= init[0].firstSharedF + i < init[k].firstSharedF + init[k].sharedFCount;
      assert init[k] == procs[k] && init[0] == procs[0];
    } else {
      assert procs[n - 1].firstSharedF <= procs[0].firstSharedF + i < procs[n - 1].firstSharedF + procs[n - 1].sharedFCount;
    }
  }

  /** When the neighbours' shared blocks abut and the topology's total is
      their sum, every old-buffer slot that the post-receive copy reads
      (FirstSharedF of the first neighbour plus i, for i below the total) is
      the target of a receive posted by the same timestep's requests. */
  lemma CopySourcesWereReceived(topology: Topology, i: nat)
    requires |topology.neighbouringProcs| > 0
    requires ContiguousSharedRegions(topology.neighbouringProcs)
    requires topology.totalSharedFs == SharedTotal(topology.neighbouringProcs)
    requires i < topology.totalSharedFs
    ensures var reqs := PostedRequests(topology.neighbouringProcs);
      var slot := topology.neighbouringProcs[0].firstSharedF + i;
      exists j :: 0 <= j < |reqs| && reqs[j].direction == Receive && reqs[j].buffer == FOld &&
        reqs[j].offset <= slot < reqs[j].offset + reqs[j].count
  {
    var procs := topology.neighbouringProcs;
    HaloSlotOwner(procs, i);
    var k :| 0 <= k < |procs| &&
      procs[k].firstSharedF <= procs[0].firstSharedF + i < procs[k].firstSharedF + procs[k].sharedFCount;
    PostedRequestsShape(procs);
    assert PostedRequests(procs)[2 * k] == ReceiveFrom(procs[k]);
  }
}
