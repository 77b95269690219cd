/** The pod and node list helpers of the Kubernetes utilities: the scheduled
    and unschedulable pod filters, the node filter behind a node lister, the
    node lister's `List` and `Get`, and the lister registry's getters.

    The client-go listers the code wraps are foreign: what they answer is
    passed in as a parameter. */
module Listers {
  import opened Wrappers

  /** The status of a pod condition. */
  datatype ConditionStatus = ConditionTrue | ConditionFalse | ConditionUnknown

  /** A pod's PodScheduled condition. */
  datatype PodCondition = PodCondition(status: ConditionStatus, reason: string)

  /** The reason the scheduler gives to a pod it could not place. */
  const PodReasonUnschedulable: string := "Unschedulable"

  /** The parts of a pod these helpers read: the node it is bound to (empty
      when unbound), its PodScheduled condition if it has one, and its
      deletion timestamp if it is being deleted. */
  datatype Pod = Pod(name: string, nodeName: string, scheduledCondition: Option<PodCondition>,
                     deletionTimestamp: Option<int>)

  /** A node, identified by its name. */
  datatype Node = Node(name: string)

  predicate IsScheduled(p: Pod)
  {
    p.nodeName != ""
  }

  predicate IsUnschedulable(p: Pod)
  {
    && p.nodeName == ""
    && p.scheduledCondition.Some?
    && p.scheduledCondition.value.status == ConditionFalse
    && p.scheduledCondition.value.reason == PodReasonUnschedulable
    && p.deletionTimestamp.None?
  }

  /** The elements of `s` that satisfy `p`, in their order in `s`: the
      specification of the append-in-a-loop filters below. */
  function Filter<T>(s: seq<T>, p: T -> bool): seq<T>
  {
    if s == [] then []
    else Filter(s[..|s| - 1], p) + (if p(s[|s| - 1]) then [s[|s| - 1]] else [])
  }

  /** `a` is `b` with some elements left out and the rest kept in order. */
  ghost predicate IsSubsequence<T>(a: seq<T>, b: seq<T>)
  {
    if a == [] then true
    else if b == [] then false
    else if a[|a| - 1] == b[|b| - 1] then IsSubsequence(a[..|a| - 1], b[..|b| - 1])
    else IsSubsequence(a, b[..|b| - 1])
  }

  /** Filtering keeps exactly the elements satisfying the predicate. */
  lemma {:induction false} FilterMembers<T>(s: seq<T>, p: T -> bool)
    ensures forall x :: x in Filter(s, p) <==> x in s && p(x)
  {
    if s != [] {
      var init, last := s[..|s| - 1], s[|s| - 1];
      FilterMembers(init, p);
      assert s == init + [last];
    }
  }

  /** ... each of them as often as it occurs in the input ... */
  lemma {:induction false} FilterMultiplicity<T>(s: seq<T>, p: T -> bool)
    ensures forall x :: multiset(Filter(s, p))[x] == if p(x) then multiset(s)[x] else 0
  {
    if s != [] {
      var init, last := s[..|s| - 1], s[|s| - 1];
      FilterMultiplicity(init, p);
      assert s == init + [last];
      assert multiset(s) == multiset(init) + multiset{last};
    }
  }

  /** ... in input order, and never more elements than the input has. */
  lemma {:induction false} FilterInOrder<T>(s: seq<T>, p: T -> bool)
    ensures IsSubsequence(Filter(s, p), s)
    ensures |Filter(s, p)| <= |s|
  {
    if s != [] {
      var init, last := s[..|s| - 1], s[|s| - 1];
      FilterInOrder(init, p);
      var f := Filter(s, p);
      if p(last) {
        assert f[..|f| - 1] == Filter(init, p);
      } else {
        assert f == Filter(init, p);
        SubsequenceOfLonger(Filter(init, p), init, last);
        assert init + [last] == s;
      }
    }
  }

  /** A subsequence of `b` is a subsequence of `b` extended. */
  lemma {:induction false} SubsequenceOfLonger<T>(a: seq<T>, b: seq<T>, x: T)
    requires IsSubsequence(a, b)
    ensures IsSubsequence(a, b + [x])
    decreases |b|, 1
  {
    var b' := b + [x];
    assert b'[..|b'| - 1] == b;
    if a != [] && a[|a| - 1] == x {
      SubsequencePrefix(a, b);
    }
  }

  /** Dropping the last element of a subsequence keeps it a subsequence. */
  lemma {:induction false} SubsequencePrefix<T>(a: seq<T>, b: seq<T>)
    requires a != [] && IsSubsequence(a, b)
    ensures IsSubsequence(a[..|a| - 1], b)
    decreases |b|, 0
  {
    var b', y := b[..|b| - 1], b[|b| - 1];
    assert b' + [y] == b;
    if a[|a| - 1] != y {
      SubsequencePrefix(a, b');
    }
    SubsequenceOfLonger(a[..|a| - 1], b', y);
  }

  /** Filtering twice with the same predicate is filtering once. */
  lemma {:induction false} FilterIdempotent<T>(s: seq<T>, p: T -> bool)
    ensures Filter(Filter(s, p), p) == Filter(s, p)
  {
    if s != [] {
      var init, last := s[..|s| - 1], s[|s| - 1];
      FilterIdempotent(init, p);
      var f := Filter(s, p);
      if p(last) {
        assert f == Filter(init, p) + [last];
        assert f[..|f| - 1] == Filter(init, p);
        assert f[|f| - 1] == last;
      } else {
        assert f == Filter(init, p);
      }
    }
  }

  /** No pod is both scheduled and unschedulable, so the two helpers never
      return the same pod. */
  lemma ScheduledAndUnschedulableDisjoint(pods: seq<Pod>)
    ensures forall p :: p in Filter(pods, IsScheduled) ==> p !in Filter(pods, IsUnschedulable)
  {
    FilterMembers(pods, IsScheduled);
    FilterMembers(pods, IsUnschedulable);
  }

  /** `ScheduledPods`: the pods bound to a node, in their original order. */
  method ScheduledPods(allPods: seq<Pod>) returns (scheduledPods: seq<Pod>)
    ensures scheduledPods == Filter(allPods, IsScheduled)
  {
    scheduledPods := [];
    for i := 0 to |allPods|
      invariant scheduledPods == Filter(allPods[..i], IsScheduled)
    {
      assert allPods[..i + 1][..i] == allPods[..i];
      var pod := allPods[i];
      if pod.nodeName != "" {
        scheduledPods := scheduledPods + [pod];
      }
    }
    assert allPods[..|allPods|] == allPods;
  }

  /** `UnschedulablePods`: the unbound pods that the scheduler marked
      unschedulable and that are not being deleted, in their original order. */
  method UnschedulablePods(allPods: seq<Pod>) returns (unschedulablePods: seq<Pod>)
    ensures unschedulablePods == Filter(allPods, IsUnschedulable)
  {
    unschedulablePods := [];
    for i := 0 to |allPods|
      invariant unschedulablePods == Filter(allPods[..i], IsUnschedulable)
    {
      assert allPods[..i + 1][..i] == allPods[..i];
      var pod := allPods[i];
      if pod.nodeName == "" {
        var condition := pod.scheduledCondition;
        if condition.Some? && condition.value.status == ConditionFalse && condition.value.reason == PodReasonUnschedulable {
          if pod.deletionTimestamp.None? {
            unschedulablePods := unschedulablePods + [pod];
          }
        }
      }
    }
    assert allPods[..|allPods|] == allPods;
  }

  /** `filterNodes`: the nodes satisfying the predicate, in order. */
  method FilterNodes(nodes: seq<Node>, keep: Node -> bool) returns (filtered: seq<Node>)
    ensures filtered == Filter(nodes, keep)
  {
    filtered := [];
    for i := 0 to |nodes|
      invariant filtered == Filter(nodes[..i], keep)
    {
      assert nodes[..i + 1][..i] == nodes[..i];
      if keep(nodes[i]) {
        filtered := filtered + [nodes[i]];
      }
    }
    assert nodes[..|nodes|] == nodes;
  }

  /** An error reported by the underlying client-go lister. */
  type ListerError = string

  /** `nodeListerImpl`: the underlying lister is foreign, so only the optional
      filter is kept here. */
  datatype NodeListerImpl = NodeListerImpl(filter: Option<Node -> bool>)

  /** `nodeListerImpl.List`, given what the underlying lister answered. */
  function List(l: NodeListerImpl, listed: Result<seq<Node>, ListerError>): (r: (seq<Node>, Option<ListerError>))
    ensures listed.Failure? ==> r == ([], Some(listed.error))
    ensures listed.Success? && l.filter.None? ==> r == (listed.value, None)
    ensures listed.Success? && l.filter.Some? ==> r == (Filter(listed.value, l.filter.value), None)
  {
    match listed
    case Failure(err) => ([], Some(err))
    case Success(nodes) =>
      (if l.filter.Some? then Filter(nodes, l.filter.value) else nodes, None)
  }

  /** Whatever the filter, a successful `List` returns only nodes the
      underlying lister returned, all of them that pass the filter, and each
      passing the filter if there is one. */
  lemma ListReturnsFilteredUnderlying(l: NodeListerImpl, nodes: seq<Node>)
    ensures List(l, Success(nodes)).1 == None
    ensures |List(l, Success(nodes)).0| <= |nodes|
    ensures forall n :: n in List(l, Success(nodes)).0 <==> n in nodes && (l.filter.None? || l.filter.value(n))
  {
    if l.filter.Some? {
      FilterMembers(nodes, l.filter.value);
      FilterInOrder(nodes, l.filter.value);
    }
  }

  /** `nodeListerImpl.Get`, given what the underlying lister answered: the
      node or the error, passed through. The filter plays no part. */
  function Get(l: NodeListerImpl, fetched: Result<Node, ListerError>): (r: (Option<Node>, Option<ListerError>))
    ensures fetched.Failure? ==> r == (None, Some(fetched.error))
    ensures fetched.Success? ==> r == (Some(fetched.value), None)
  {
    match fetched
    case Failure(err) => (None, Some(err))
    case Success(node) => (Some(node), None)
  }

  /** `listerRegistryImpl`. Each lister kind is a type parameter: the listers
      are interfaces whose implementations live in client-go or elsewhere. */
  datatype ListerRegistry<NodeL, PodL, PdbL, DsL, RcL, JobL, RsL, SsL> = ListerRegistry(
    allNodeLister: NodeL,
    readyNodeLister: NodeL,
    allPodLister: PodL,
    podDisruptionBudgetLister: PdbL,
    daemonSetLister: DsL,
    replicationControllerLister: RcL,
    jobLister: JobL,
    replicaSetLister: RsL,
    statefulSetLister: SsL)
  {
    function AllPodLister(): PodL { allPodLister }
    function AllNodeLister(): NodeL { allNodeLister }
    function ReadyNodeLister(): NodeL { readyNodeLister }
    function PodDisruptionBudgetLister(): PdbL { podDisruptionBudgetLister }
    function DaemonSetLister(): DsL { daemonSetLister }
    function ReplicationControllerLister(): RcL { replicationControllerLister }
    function JobLister(): JobL { jobLister }
    function ReplicaSetLister(): RsL { replicaSetLister }
    function StatefulSetLister(): SsL { statefulSetLister }
  }

  /** `NewListerRegistry`: each getter of the registry returns the lister
      given in the matching position; in particular the all-nodes and
      ready-nodes listers, of the same type, are not swapped. */
  function NewListerRegistry<NodeL, PodL, PdbL, DsL, RcL, JobL, RsL, SsL>(
    allNode: NodeL, readyNode: NodeL, allPodLister: PodL, podDisruptionBudgetLister: PdbL,
    daemonSetLister: DsL, replicationControllerLister: RcL, jobLister: JobL,
    replicaSetLister: RsL, statefulSetLister: SsL): (r: ListerRegistry<NodeL, PodL, PdbL, DsL, RcL, JobL, RsL, SsL>)
    ensures r.AllNodeLister() == allNode
    ensures r.ReadyNodeLister() == readyNode
    ensures r.AllPodLister() == allPodLister
    ensures r.PodDisruptionBudgetLister() == podDisruptionBudgetLister
    ensures r.DaemonSetLister() == daemonSetLister
    ensures r.ReplicationControllerLister() == replicationControllerLister
    ensures r.JobLister() == jobLister
    ensures r.ReplicaSetLister() == replicaSetLister
    ensures r.StatefulSetLister() == statefulSetLister
  {
    ListerRegistry(allNode, readyNode, allPodLister, podDisruptionBudgetLister, daemonSetLister,
                   replicationControllerLister, jobLister, replicaSetLister, statefulSetLister)
  }

  /** The getters determine a registry: building one from another's getters
      gives that registry back, so every registry is one `NewListerRegistry`
      builds and no getter hides a lister. */
  lemma RegistryRebuiltFromGetters<NodeL, PodL, PdbL, DsL, RcL, JobL, RsL, SsL>(
    r: ListerRegistry<NodeL, PodL, PdbL, DsL, RcL, JobL, RsL, SsL>)
    ensures NewListerRegistry(r.AllNodeLister(), r.ReadyNodeLister(), r.AllPodLister(),
                              r.PodDisruptionBudgetLister(), r.DaemonSetLister(),
                              r.ReplicationControllerLister(), r.JobLister(),
                              r.ReplicaSetLister(), r.StatefulSetLister()) == r
  {
  }
}
