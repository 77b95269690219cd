/** The batcher as the scheduler's tests observe it: `countingBatcher`, whose
    `AddNodes` only adds the length of each batch to a counter. A ghost history
    of the calls lets the rest of the model say which nodes reached it. */
module CountingBatcher {
  import opened ClusterTypes

  /** One `AddNodes(nodes, nodeGroup, drain)` call. */
  datatype Batch = Batch(nodes: seq<NodeName>, group: NodeGroup, drain: bool)

  /** The number of nodes carried by a sequence of calls. */
  function TotalNodes(calls: seq<Batch>): nat
  {
    if calls == [] then 0 else TotalNodes(calls[..|calls| - 1]) + |calls[|calls| - 1].nodes|
  }

  /** Every node carried by a sequence of calls, in call order. */
  function DeliveredNodes(calls: seq<Batch>): seq<NodeName>
  {
    if calls == [] then [] else DeliveredNodes(calls[..|calls| - 1]) + calls[|calls| - 1].nodes
  }

  /** The counter is the number of delivered nodes, and a batch added at the
      end adds exactly its own nodes. */
  lemma {:induction false} TotalNodesIsDelivered(calls: seq<Batch>)
    ensures TotalNodes(calls) == |DeliveredNodes(calls)|
  {
    if calls != [] {
      TotalNodesIsDelivered(calls[..|calls| - 1]);
    }
  }

  /** Counting splits over concatenation of call histories. */
  lemma {:induction false} TotalNodesAppend(a: seq<Batch>, b: seq<Batch>)
    ensures TotalNodes(a + b) == TotalNodes(a) + TotalNodes(b)
    ensures DeliveredNodes(a + b) == DeliveredNodes(a) + DeliveredNodes(b)
    decreases |b|
  {
    if b == [] {
      assert a + b == a;
    } else {
      var b' := b[..|b| - 1];
      assert (a + b)[..|a + b| - 1] == a + b';
      TotalNodesAppend(a, b');
    }
  }

  class CountingBatcher {
    var addedNodes: int
    ghost var calls: seq<Batch>

    ghost predicate Valid()
      reads this
    {
      addedNodes == TotalNodes(calls)
    }

    constructor ()
      ensures Valid() && calls == [] && addedNodes == 0
    {
      addedNodes := 0;
      calls := [];
    }

    /** `countingBatcher.AddNodes`: the counter grows by exactly the number of
        nodes handed over, and nothing else about the batcher changes. */
    method AddNodes(nodes: seq<NodeName>, group: NodeGroup, drain: bool)
      requires Valid()
      modifies this
      ensures Valid()
      ensures addedNodes == old(addedNodes) + |nodes|
      ensures calls == old(calls) + [Batch(nodes, group, drain)]
    {
      addedNodes := addedNodes + |nodes|;
      calls := calls + [Batch(nodes, group, drain)];
      assert calls[..|calls| - 1] == old(calls);
    }
  }
}
