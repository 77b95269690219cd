/** The deletion tracker's result store: one terminal result per node name,
    the last one recorded winning. A ghost log keeps every registration so that
    "recorded exactly once" can be stated. */
module DeletionTracker {
  import opened ClusterTypes

  /** One registration of a result for a node. */
  datatype Record = Record(node: NodeName, result: NodeDeleteResult)

  /** The name-to-result map a log of registrations leaves behind. */
  function ResultsMap(log: seq<Record>): map<NodeName, NodeDeleteResult>
  {
    if log == [] then map[]
    else ResultsMap(log[..|log| - 1])[log[|log| - 1].node := log[|log| - 1].result]
  }

  /** The names that have a registration in a log, in order. */
  function RecordedNodes(log: seq<Record>): seq<NodeName>
  {
    if log == [] then [] else RecordedNodes(log[..|log| - 1]) + [log[|log| - 1].node]
  }

  /** A node has a result exactly when it was registered at least once, and
      its result is the one of its latest registration. */
  lemma {:induction false} ResultsMapLatest(log: seq<Record>, n: NodeName)
    ensures n in ResultsMap(log) <==> exists i :: 0 <= i < |log| && log[i].node == n
    ensures forall i :: (0 <= i < |log| && log[i].node == n &&
                         forall j :: i < j < |log| ==> log[j].node != n) ==>
                        ResultsMap(log)[n] == log[i].result
  {
    if log != [] {
      var init := log[..|log| - 1];
      ResultsMapLatest(init, n);
      assert forall i :: 0 <= i < |init| ==> init[i] == log[i];
    }
  }

  /** Registrations of other nodes leave a node's result alone. */
  lemma {:induction false} ResultsMapAppendOthers(log: seq<Record>, tail: seq<Record>, n: NodeName)
    requires forall j :: 0 <= j < |tail| ==> tail[j].node != n
    ensures (n in ResultsMap(log + tail)) == (n in ResultsMap(log))
    ensures n in ResultsMap(log) ==> ResultsMap(log + tail)[n] == ResultsMap(log)[n]
    decreases |tail|
  {
    if tail == [] {
      assert log + tail == log;
    } else {
      var t' := tail[..|tail| - 1];
      assert (log + tail)[..|log + tail| - 1] == log + t';
      ResultsMapAppendOthers(log, t', n);
    }
  }

  /** The recorded names split over concatenation of logs. */
  lemma {:induction false} RecordedNodesAppend(a: seq<Record>, b: seq<Record>)
    ensures RecordedNodes(a + b) == RecordedNodes(a) + RecordedNodes(b)
    decreases |b|
  {
    if b == [] {
      assert a + b == a;
    } else {
      var b' := b[..|b| - 1];
      assert (a + b)[..|a + b| - 1] == a + b';
      RecordedNodesAppend(a, b');
    }
  }

  class NodeDeletionTracker {
    var results: map<NodeName, NodeDeleteResult>
    ghost var log: seq<Record>

    ghost predicate Valid()
      reads this
    {
      results == ResultsMap(log)
    }

    constructor ()
      ensures Valid() && log == [] && results == map[]
    {
      results := map[];
      log := [];
    }

    /** Records one result for a node, overwriting an earlier one. */
    method RegisterResult(node: NodeName, result: NodeDeleteResult)
      requires Valid()
      modifies this
      ensures Valid()
      ensures log == old(log) + [Record(node, result)]
      ensures results == old(results)[node := result]
    {
      log := log + [Record(node, result)];
      results := results[node := result];
      assert log[..|log| - 1] == old(log);
    }

    /** `DeletionResults()`: the full name-to-result map. */
    method DeletionResults() returns (r: map<NodeName, NodeDeleteResult>)
      requires Valid()
      ensures r == ResultsMap(log)
    {
      r := results;
    }
  }
}
