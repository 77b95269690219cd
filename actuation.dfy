/** The group deletion scheduler of scale-down actuation.

    Drain workers report each node either as ready (`ScheduleDeletion`) or as
    failed (`AbortNodeDeletion`). Nodes of a non-atomic group go to the batcher
    one by one at once. Nodes of an atomic group are held per group id until
    the group's target size is reached, and are then handed over in a single
    batch. One failing member aborts the whole group: everything it had
    accumulated is failed and it never flushes.

    The calls are modelled as a sequence of steps in arbitrary order. The step
    functions `Schedule` and `Abort` over `State` are the specification, and the
    methods of the class `GroupDeletionScheduler` are proved to perform exactly
    those steps on the accumulators, the batcher and the deletion tracker. */
module Actuation {
  import opened ClusterTypes
  import opened CountingBatcher
  import opened DeletionTracker

  /** Where an atomic group's accumulation stands. Flushed and Aborted are
      terminal. */
  datatype Phase = Accumulating | Flushed | Aborted

  /** Per atomic group id: the completion threshold fixed at first sight, the
      nodes collected so far (or flushed, or failed) and the phase. */
  datatype Accumulator = Accumulator(targetSize: int, accumulated: seq<NodeName>, phase: Phase)

  /** What the scheduler and its collaborators hold: the accumulators, every
      batcher call and every result registered with the tracker. */
  datatype State = State(groups: map<GroupId, Accumulator>, batches: seq<Batch>, recorded: seq<Record>)

  /** A freshly built scheduler with a fresh batcher and tracker. */
  function Init(): State
  {
    State(map[], [], [])
  }

  /** What the counting batcher's counter reads. */
  function AddedNodes(s: State): nat
  {
    TotalNodes(s.batches)
  }

  /** What `tracker.DeletionResults()` returns. */
  function Results(s: State): map<NodeName, NodeDeleteResult>
  {
    ResultsMap(s.recorded)
  }

  /** The nodes a group holds back from the batcher right now. */
  function Pending(s: State, g: GroupId): seq<NodeName>
  {
    if g in s.groups && s.groups[g].phase == Accumulating then s.groups[g].accumulated else []
  }

  /** `ScheduleDeletion(node, group, groupSize, drain)` as a state step. */
  function Schedule(s: State, node: NodeName, group: NodeGroup, groupSize: int, drain: bool): (r: State)
    // the batcher and the tracker only ever see calls appended
    ensures s.batches <= r.batches && s.recorded <= r.recorded
    // a call hands over at most one batch or registers at most one result, never both
    ensures |r.batches| - |s.batches| + |r.recorded| - |s.recorded| <= 1
  {
    if !group.atomic then
      s.(batches := s.batches + [Batch([node], group, drain)])
    else
      var acc := if group.id in s.groups then s.groups[group.id] else Accumulator(groupSize, [], Accumulating);
      match acc.phase
      case Aborted =>
        s.(recorded := s.recorded + [Record(node, FailedToDelete(GroupAlreadyAborted(group.id)))])
      case Flushed =>
        s.(recorded := s.recorded + [Record(node, FailedToDelete(GroupAlreadyFlushed(group.id)))])
      case Accumulating =>
        var nodes := acc.accumulated + [node];
        if |nodes| == acc.targetSize then
          s.(groups := s.groups[group.id := Accumulator(acc.targetSize, nodes, Flushed)],
             batches := s.batches + [Batch(nodes, group, drain)])
        else
          s.(groups := s.groups[group.id := acc.(accumulated := nodes)])
  }

  /** The failures recorded for the accumulated members of an aborted group,
      in accumulation order, leaving out the member whose abort triggered it. */
  function SiblingFailures(nodes: seq<NodeName>, groupId: GroupId, trigger: NodeName): seq<Record>
  {
    if nodes == [] then []
    else
      var last := nodes[|nodes| - 1];
      SiblingFailures(nodes[..|nodes| - 1], groupId, trigger)
      + (if last != trigger then [Record(last, FailedToDelete(AbortedBySibling(groupId, trigger)))] else [])
  }

  /** `AbortNodeDeletion(node, groupId, drain, reason, result)` as a state step. */
  function Abort(s: State, node: NodeName, groupId: GroupId, result: NodeDeleteResult): (r: State)
    // an abort never hands anything to the batcher
    ensures r.batches == s.batches
  {
    var recorded := s.recorded + [Record(node, result)];
    if groupId in s.groups && s.groups[groupId].phase == Accumulating then
      var acc := s.groups[groupId];
      State(s.groups[groupId := acc.(phase := Aborted)], s.batches,
            recorded + SiblingFailures(acc.accumulated, groupId, node))
    else
      s.(recorded := recorded)
  }

  /** One public call made by some drain worker. */
  datatype Op =
    | ScheduleOp(node: NodeName, group: NodeGroup, groupSize: int, drain: bool)
    | AbortOp(node: NodeName, groupId: GroupId, drain: bool, reason: string, result: NodeDeleteResult)

  function Step(s: State, op: Op): State
  {
    match op
    case ScheduleOp(node, group, size, drain) => Schedule(s, node, group, size, drain)
    case AbortOp(node, groupId, _, _, result) => Abort(s, node, groupId, result)
  }

  /** The calls, serialised in the order they took effect. */
  function Run(s: State, ops: seq<Op>): State
  {
    if ops == [] then s else Step(Run(s, ops[..|ops| - 1]), ops[|ops| - 1])
  }

  /** An accumulating group has not reached its threshold yet. */
  predicate BelowTarget(acc: Accumulator)
  {
    acc.targetSize <= 0 || |acc.accumulated| < acc.targetSize
  }

  /** The bookkeeping invariant.
      - an accumulating group has not reached its threshold;
      - every batch of an atomic group is the flush of that group: the group is
        Flushed and the batch carries exactly its targetSize accumulated nodes;
      - no atomic group id has two batches;
      - every Flushed group has its batch. */
  ghost predicate Inv(s: State)
  {
    && (forall g :: g in s.groups && s.groups[g].phase == Accumulating ==> BelowTarget(s.groups[g]))
    && (forall i :: 0 <= i < |s.batches| && s.batches[i].group.atomic ==>
          && s.batches[i].group.id in s.groups
          && s.groups[s.batches[i].group.id].phase == Flushed
          && s.batches[i].nodes == s.groups[s.batches[i].group.id].accumulated
          && |s.batches[i].nodes| == s.groups[s.batches[i].group.id].targetSize)
    && (forall i, j :: 0 <= i < j < |s.batches| && s.batches[i].group.atomic && s.batches[j].group.atomic ==>
          s.batches[i].group.id != s.batches[j].group.id)
    && (forall g :: g in s.groups && s.groups[g].phase == Flushed ==>
          exists i :: 0 <= i < |s.batches| && s.batches[i].group.atomic && s.batches[i].group.id == g)
  }

  lemma InitInv()
    ensures Inv(Init())
    ensures AddedNodes(Init()) == 0 && Results(Init()) == map[]
  {
  }

  /** No batch of an atomic group exists while that group is not Flushed. */
  lemma NoBatchUnlessFlushed(s: State, g: GroupId)
    requires Inv(s)
    requires g !in s.groups || s.groups[g].phase != Flushed
    ensures forall i :: 0 <= i < |s.batches| && s.batches[i].group.atomic ==> s.batches[i].group.id != g
  {
  }

  /** Adding one batch keeps the batches of Flushed groups other than `g`. */
  lemma FlushedWitnessesKept(s: State, s': State, g: GroupId)
    requires Inv(s)
    requires |s'.batches| >= |s.batches| && s'.batches[..|s.batches|] == s.batches
    requires forall h :: h != g ==> (h in s'.groups <==> h in s.groups)
    requires forall h :: h != g && h in s.groups ==> s'.groups[h] == s.groups[h]
    ensures forall h :: h != g && h in s'.groups && s'.groups[h].phase == Flushed ==>
      exists i :: 0 <= i < |s'.batches| && s'.batches[i].group.atomic && s'.batches[i].group.id == h
  {
    forall h | h != g && h in s'.groups && s'.groups[h].phase == Flushed
      ensures exists i :: 0 <= i < |s'.batches| && s'.batches[i].group.atomic && s'.batches[i].group.id == h
    {
      var i :| 0 <= i < |s.batches| && s.batches[i].group.atomic && s.batches[i].group.id == h;
      assert s'.batches[i] == s.batches[.. |s.batches|][i];
    }
  }

  lemma FlushKeepsInv(s: State, node: NodeName, group: NodeGroup, groupSize: int, drain: bool)
    requires Inv(s) && group.atomic
    requires group.id in s.groups ==> s.groups[group.id].phase == Accumulating
    requires var acc := if group.id in s.groups then s.groups[group.id] else Accumulator(groupSize, [], Accumulating);
      |acc.accumulated| + 1 == acc.targetSize
    ensures Inv(Schedule(s, node, group, groupSize, drain))
  {
    var s' := Schedule(s, node, group, groupSize, drain);
    NoBatchUnlessFlushed(s, group.id);
    FlushedWitnessesKept(s, s', group.id);
    var k := |s.batches|;
    assert s'.batches[k].group == group;
  }

  lemma AccumulateKeepsInv(s: State, node: NodeName, group: NodeGroup, groupSize: int, drain: bool)
    requires Inv(s) && group.atomic
    requires group.id in s.groups ==> s.groups[group.id].phase == Accumulating
    requires var acc := if group.id in s.groups then s.groups[group.id] else Accumulator(groupSize, [], Accumulating);
      |acc.accumulated| + 1 != acc.targetSize
    ensures Inv(Schedule(s, node, group, groupSize, drain))
  {
    var s' := Schedule(s, node, group, groupSize, drain);
    NoBatchUnlessFlushed(s, group.id);
    FlushedWitnessesKept(s, s', group.id);
  }

  lemma ScheduleKeepsInv(s: State, node: NodeName, group: NodeGroup, groupSize: int, drain: bool)
    requires Inv(s)
    ensures Inv(Schedule(s, node, group, groupSize, drain))
  {
    var s' := Schedule(s, node, group, groupSize, drain);
    if !group.atomic {
      FlushedWitnessesKept(s, s', group.id);
    } else {
      var acc := if group.id in s.groups then s.groups[group.id] else Accumulator(groupSize, [], Accumulating);
      if acc.phase == Accumulating {
        if |acc.accumulated| + 1 == acc.targetSize {
          FlushKeepsInv(s, node, group, groupSize, drain);
        } else {
          AccumulateKeepsInv(s, node, group, groupSize, drain);
        }
      }
    }
  }

  lemma AbortKeepsInv(s: State, node: NodeName, groupId: GroupId, result: NodeDeleteResult)
    requires Inv(s)
    ensures Inv(Abort(s, node, groupId, result))
  {
  }

  /** Whatever the interleaving of calls, the invariant holds: all-or-nothing
      flushing for atomic groups holds in every reachable state. */
  lemma {:induction false} RunKeepsInv(ops: seq<Op>)
    ensures Inv(Run(Init(), ops))
  {
    if ops == [] {
      InitInv();
    } else {
      var s := Run(Init(), ops[..|ops| - 1]);
      RunKeepsInv(ops[..|ops| - 1]);
      match ops[|ops| - 1]
      case ScheduleOp(node, group, size, drain) => ScheduleKeepsInv(s, node, group, size, drain);
      case AbortOp(node, groupId, _, _, result) => AbortKeepsInv(s, node, groupId, result);
    }
  }

  /** In every reachable state, an atomic group has handed nodes to the batcher
      only if it is Flushed, then exactly once and with exactly targetSize
      nodes; an Aborted or still accumulating group has handed over none. */
  lemma AtomicGroupFlushedOnce(ops: seq<Op>, g: GroupId)
    ensures var s := Run(Init(), ops);
      && (forall i :: 0 <= i < |s.batches| && s.batches[i].group.atomic && s.batches[i].group.id == g ==>
            g in s.groups && s.groups[g].phase == Flushed && |s.batches[i].nodes| == s.groups[g].targetSize)
      && (forall i, j :: (0 <= i < |s.batches| && 0 <= j < |s.batches| &&
                          s.batches[i].group.atomic && s.batches[j].group.atomic &&
                          s.batches[i].group.id == g && s.batches[j].group.id == g) ==> i == j)
      && (g in s.groups && s.groups[g].phase == Flushed <==>
            exists i :: 0 <= i < |s.batches| && s.batches[i].group.atomic && s.batches[i].group.id == g)
  {
    RunKeepsInv(ops);
  }

  /** A Flushed or Aborted accumulator never changes again, and no
      accumulator ever disappears. */
  lemma StepKeepsTerminal(s: State, op: Op, g: GroupId)
    requires g in s.groups
    ensures g in Step(s, op).groups
    ensures s.groups[g].phase != Accumulating ==> Step(s, op).groups[g] == s.groups[g]
  {
  }

  /** A call about one group leaves every other group's accumulator as it was,
      and a batch it adds is for its own group. */
  lemma StepIsolatesGroups(s: State, op: Op, h: GroupId)
    requires h != (if op.ScheduleOp? then op.group.id else op.groupId)
    ensures (h in Step(s, op).groups) == (h in s.groups)
    ensures h in s.groups ==> Step(s, op).groups[h] == s.groups[h]
    ensures Pending(Step(s, op), h) == Pending(s, h)
    ensures |Step(s, op).batches| >= |s.batches|
    ensures Step(s, op).batches[..|s.batches|] == s.batches
    ensures forall i :: |s.batches| <= i < |Step(s, op).batches| ==> Step(s, op).batches[i].group.id != h
  {
  }

  /** A non-atomic group bypasses accumulation: the node reaches the batcher
      at once, alone, and nothing else changes. */
  lemma NonAtomicForwardsAtOnce(s: State, node: NodeName, group: NodeGroup, groupSize: int, drain: bool)
    requires !group.atomic
    ensures var s' := Schedule(s, node, group, groupSize, drain);
      && s'.batches == s.batches + [Batch([node], group, drain)]
      && AddedNodes(s') == AddedNodes(s) + 1
      && s'.groups == s.groups && s'.recorded == s.recorded
  {
    var s' := Schedule(s, node, group, groupSize, drain);
    assert s'.batches[..|s'.batches| - 1] == s.batches;
  }

  /** An atomic group holds its nodes back until the threshold is met, and
      then hands over all of them in one batch. */
  lemma AtomicAccumulatesThenFlushes(s: State, node: NodeName, group: NodeGroup, groupSize: int, drain: bool)
    requires group.atomic
    requires group.id in s.groups ==> s.groups[group.id].phase == Accumulating
    ensures var s' := Schedule(s, node, group, groupSize, drain);
      var target := if group.id in s.groups then s.groups[group.id].targetSize else groupSize;
      var nodes := Pending(s, group.id) + [node];
      && s'.recorded == s.recorded
      && (|nodes| == target ==>
            && s'.batches == s.batches + [Batch(nodes, group, drain)]
            && AddedNodes(s') == AddedNodes(s) + target
            && s'.groups[group.id].phase == Flushed && Pending(s', group.id) == [])
      && (|nodes| != target ==>
            && s'.batches == s.batches && AddedNodes(s') == AddedNodes(s)
            && Pending(s', group.id) == nodes)
  {
    var s' := Schedule(s, node, group, groupSize, drain);
    if |s'.batches| > |s.batches| {
      assert s'.batches[..|s'.batches| - 1] == s.batches;
    }
  }

  /** A node scheduled into an aborted atomic group is failed and never
      reaches the batcher. */
  lemma ScheduleIntoAbortedFails(s: State, node: NodeName, group: NodeGroup, groupSize: int, drain: bool)
    requires group.atomic && group.id in s.groups && s.groups[group.id].phase == Aborted
    ensures var s' := Schedule(s, node, group, groupSize, drain);
      && s'.batches == s.batches && s'.groups == s.groups
      && Results(s') == Results(s)[node := FailedToDelete(GroupAlreadyAborted(group.id))]
  {
    var s' := Schedule(s, node, group, groupSize, drain);
    assert s'.recorded[..|s'.recorded| - 1] == s.recorded;
  }

  /** The sibling failures name only accumulated nodes other than the trigger,
      all of them, in order. */
  lemma {:induction false} SiblingFailuresNodes(nodes: seq<NodeName>, groupId: GroupId, trigger: NodeName)
    ensures forall j :: 0 <= j < |SiblingFailures(nodes, groupId, trigger)| ==>
      SiblingFailures(nodes, groupId, trigger)[j].node != trigger &&
      SiblingFailures(nodes, groupId, trigger)[j].node in nodes
    ensures trigger !in nodes ==> RecordedNodes(SiblingFailures(nodes, groupId, trigger)) == nodes
  {
    if nodes != [] {
      var init := nodes[..|nodes| - 1];
      SiblingFailuresNodes(init, groupId, trigger);
      var last := nodes[|nodes| - 1];
      var tail := if last != trigger then [Record(last, FailedToDelete(AbortedBySibling(groupId, trigger)))] else [];
      RecordedNodesAppend(SiblingFailures(init, groupId, trigger), tail);
      assert nodes == init + [last];
      assert RecordedNodes(tail) == if last != trigger then [last] else [] by {
        if last != trigger {
          assert tail[..0] == [];
        }
      }
    }
  }

  /** After a group is aborted, each of its other accumulated members holds the
      sibling failure in the result map. */
  lemma {:induction false} SiblingFailuresRecorded(log: seq<Record>, nodes: seq<NodeName>, groupId: GroupId, trigger: NodeName, n: NodeName)
    requires n in nodes && n != trigger
    ensures n in ResultsMap(log + SiblingFailures(nodes, groupId, trigger))
    ensures ResultsMap(log + SiblingFailures(nodes, groupId, trigger))[n]
            == FailedToDelete(AbortedBySibling(groupId, trigger))
  {
    var init := nodes[..|nodes| - 1];
    var last := nodes[|nodes| - 1];
    var prefix := log + SiblingFailures(init, groupId, trigger);
    var tail := if last != trigger then [Record(last, FailedToDelete(AbortedBySibling(groupId, trigger)))] else [];
    assert log + SiblingFailures(nodes, groupId, trigger) == prefix + tail;
    if last == n {
      assert (prefix + tail)[..|prefix + tail| - 1] == prefix;
    } else {
      assert nodes == init + [last];
      assert n in init;
      SiblingFailuresRecorded(log, init, groupId, trigger, n);
      ResultsMapAppendOthers(prefix, tail, n);
    }
  }

  /** `AbortNodeDeletion` records the caller's result for the node verbatim,
      whether or not the scheduler knew the node. */
  lemma AbortRecordsGivenResult(s: State, node: NodeName, groupId: GroupId, result: NodeDeleteResult)
    ensures node in Results(Abort(s, node, groupId, result))
    ensures Results(Abort(s, node, groupId, result))[node] == result
  {
    var own := s.recorded + [Record(node, result)];
    assert own[..|own| - 1] == s.recorded;
    if groupId in s.groups && s.groups[groupId].phase == Accumulating {
      var acc := s.groups[groupId];
      SiblingFailuresNodes(acc.accumulated, groupId, node);
      ResultsMapAppendOthers(own, SiblingFailures(acc.accumulated, groupId, node), node);
    }
  }

  /** Aborting a member of an accumulating atomic group aborts the group for
      good, fails every other member accumulated so far and hands nothing to
      the batcher. */
  lemma AbortFailsAccumulatedSiblings(s: State, node: NodeName, groupId: GroupId, result: NodeDeleteResult)
    requires groupId in s.groups && s.groups[groupId].phase == Accumulating
    ensures var s' := Abort(s, node, groupId, result);
      && s'.groups[groupId].phase == Aborted
      && s'.batches == s.batches
      && forall n :: n in s.groups[groupId].accumulated && n != node ==>
           n in Results(s') && Results(s')[n] == FailedToDelete(AbortedBySibling(groupId, node))
  {
    var acc := s.groups[groupId];
    forall n | n in acc.accumulated && n != node
      ensures n in Results(Abort(s, node, groupId, result))
      ensures Results(Abort(s, node, groupId, result))[n] == FailedToDelete(AbortedBySibling(groupId, node))
    {
      SiblingFailuresRecorded(s.recorded + [Record(node, result)], acc.accumulated, groupId, node, n);
    }
  }

  /** Aborting a node of a group that is not accumulating records that one
      result and changes nothing else. */
  lemma AbortOutsideAccumulationRecordsOnly(s: State, node: NodeName, groupId: GroupId, result: NodeDeleteResult)
    requires !(groupId in s.groups && s.groups[groupId].phase == Accumulating)
    ensures var s' := Abort(s, node, groupId, result);
      && s'.groups == s.groups && s'.batches == s.batches
      && s'.recorded == s.recorded + [Record(node, result)]
      && Results(s') == Results(s)[node := result]
  {
    var s' := Abort(s, node, groupId, result);
    assert s'.recorded[..|s'.recorded| - 1] == s.recorded;
  }

  /** Every node brought by a call is accounted for exactly once: it is now
      either delivered to the batcher, held back by its group, or has a
      registered result, and nothing that was accounted for before is lost
      or counted twice. */
  ghost function Accounted(s: State, g: GroupId): multiset<NodeName>
  {
    multiset(DeliveredNodes(s.batches)) + multiset(Pending(s, g)) + multiset(RecordedNodes(s.recorded))
  }

  /** Accounting for the one-batch cases: the batch carries exactly the
      nodes that were pending plus the new one. */
  lemma BatchAccounting(s: State, s': State, g: GroupId, b: Batch, node: NodeName)
    requires s'.batches == s.batches + [b] && s'.recorded == s.recorded
    requires multiset(b.nodes) + multiset(Pending(s', g)) == multiset(Pending(s, g)) + multiset{node}
    ensures Accounted(s', g) == Accounted(s, g) + multiset{node}
  {
    TotalNodesAppend(s.batches, [b]);
    assert [b][..0] == [];
    assert DeliveredNodes([b]) == b.nodes;
    var d, p, p', r := multiset(DeliveredNodes(s.batches)), multiset(Pending(s, g)), multiset(Pending(s', g)), multiset(RecordedNodes(s.recorded));
    assert multiset(DeliveredNodes(s'.batches)) == d + multiset(b.nodes);
    calc {
      Accounted(s', g);
      d + multiset(b.nodes) + p' + r;
      d + (multiset(b.nodes) + p') + r;
      d + (p + multiset{node}) + r;
      Accounted(s, g) + multiset{node};
    }
  }

  /** Accounting for steps that only register results: the registered nodes
      are the ones that stopped pending plus the new ones. */
  lemma RecordsAccounting(s: State, s': State, g: GroupId, tail: seq<Record>, extra: multiset<NodeName>)
    requires s'.batches == s.batches && s'.recorded == s.recorded + tail
    requires multiset(RecordedNodes(tail)) + multiset(Pending(s', g)) == multiset(Pending(s, g)) + extra
    ensures Accounted(s', g) == Accounted(s, g) + extra
  {
    RecordedNodesAppend(s.recorded, tail);
    var d, p, p', r, t := multiset(DeliveredNodes(s.batches)), multiset(Pending(s, g)), multiset(Pending(s', g)),
      multiset(RecordedNodes(s.recorded)), multiset(RecordedNodes(tail));
    calc {
      Accounted(s', g);
      d + p' + (r + t);
      d + (t + p') + r;
      d + (p + extra) + r;
      Accounted(s, g) + extra;
    }
  }

  /** Accounting for a node of an atomic group. */
  lemma AtomicScheduleAccounts(s: State, node: NodeName, group: NodeGroup, groupSize: int, drain: bool)
    requires group.atomic
    ensures Accounted(Schedule(s, node, group, groupSize, drain), group.id) == Accounted(s, group.id) + multiset{node}
  {
    var acc := if group.id in s.groups then s.groups[group.id] else Accumulator(groupSize, [], Accumulating);
    if acc.phase == Accumulating {
      AccumulatingScheduleAccounts(s, node, group, groupSize, drain);
    } else {
      var s' := Schedule(s, node, group, groupSize, drain);
      var cause := if acc.phase == Aborted then GroupAlreadyAborted(group.id) else GroupAlreadyFlushed(group.id);
      var r := [Record(node, FailedToDelete(cause))];
      assert r[..0] == [] && RecordedNodes(r) == [node];
      assert s'.recorded == s.recorded + r && s'.batches == s.batches && s'.groups == s.groups;
      RecordsAccounting(s, s', group.id, r, multiset{node});
    }
  }

  /** Accounting while the group accumulates: the node is held back, or the
      batch carries it with everything held back before. */
  lemma AccumulatingScheduleAccounts(s: State, node: NodeName, group: NodeGroup, groupSize: int, drain: bool)
    requires group.atomic
    requires group.id in s.groups ==> s.groups[group.id].phase == Accumulating
    ensures Accounted(Schedule(s, node, group, groupSize, drain), group.id) == Accounted(s, group.id) + multiset{node}
  {
    var s' := Schedule(s, node, group, groupSize, drain);
    var acc := if group.id in s.groups then s.groups[group.id] else Accumulator(groupSize, [], Accumulating);
    var nodes := acc.accumulated + [node];
    assert Pending(s, group.id) == acc.accumulated;
    if |nodes| == acc.targetSize {
      BatchAccounting(s, s', group.id, Batch(nodes, group, drain), node);
    } else {
      assert Pending(s', group.id) == nodes;
    }
  }

  lemma ScheduleAccountsOnce(s: State, node: NodeName, group: NodeGroup, groupSize: int, drain: bool)
    ensures Accounted(Schedule(s, node, group, groupSize, drain), group.id) == Accounted(s, group.id) + multiset{node}
  {
    if group.atomic {
      AtomicScheduleAccounts(s, node, group, groupSize, drain);
    } else {
      BatchAccounting(s, Schedule(s, node, group, groupSize, drain), group.id, Batch([node], group, drain), node);
    }
  }

  lemma AbortAccountsOnce(s: State, node: NodeName, groupId: GroupId, result: NodeDeleteResult)
    requires node !in Pending(s, groupId)
    ensures Accounted(Abort(s, node, groupId, result), groupId) == Accounted(s, groupId) + multiset{node}
  {
    var s' := Abort(s, node, groupId, result);
    var own := [Record(node, result)];
    assert own[..0] == [];
    assert RecordedNodes(own) == [node];
    if groupId in s.groups && s.groups[groupId].phase == Accumulating {
      AbortAccumulatingAccounts(s, node, groupId, result);
    } else {
      RecordsAccounting(s, s', groupId, own, multiset{node});
    }
  }

  /** The tail an abort of an accumulating group registers names the trigger
      and then every node the group held back. */
  lemma AbortTailNodes(acc: Accumulator, node: NodeName, groupId: GroupId, result: NodeDeleteResult)
    requires node !in acc.accumulated
    ensures multiset(RecordedNodes([Record(node, result)] + SiblingFailures(acc.accumulated, groupId, node)))
            == multiset{node} + multiset(acc.accumulated)
  {
    var own := [Record(node, result)];
    assert own[..0] == [];
    SiblingFailuresNodes(acc.accumulated, groupId, node);
    RecordedNodesAppend(own, SiblingFailures(acc.accumulated, groupId, node));
    assert RecordedNodes(own) == [node];
  }

  lemma AbortAccumulatingAccounts(s: State, node: NodeName, groupId: GroupId, result: NodeDeleteResult)
    requires groupId in s.groups && s.groups[groupId].phase == Accumulating
    requires node !in s.groups[groupId].accumulated
    ensures Accounted(Abort(s, node, groupId, result), groupId) == Accounted(s, groupId) + multiset{node}
  {
    var acc := s.groups[groupId];
    var s' := Abort(s, node, groupId, result);
    var tail := [Record(node, result)] + SiblingFailures(acc.accumulated, groupId, node);
    AbortTailNodes(acc, node, groupId, result);
    assert s'.recorded == s.recorded + tail;
    assert Pending(s', groupId) == [];
    assert Pending(s, groupId) == acc.accumulated;
    RecordsAccounting(s, s', groupId, tail, multiset{node});
  }

  /** Dropping a name from a sequence's multiset splits over its last element. */
  lemma DropLast(nodes: seq<NodeName>, trigger: NodeName)
    requires nodes != []
    ensures var last := nodes[|nodes| - 1];
      multiset(nodes)[trigger := 0]
      == multiset(nodes[..|nodes| - 1])[trigger := 0] + multiset(if last != trigger then [last] else [])
  {
    var init, last := nodes[..|nodes| - 1], nodes[|nodes| - 1];
    var m, m' := multiset(init)[trigger := 0], multiset(nodes)[trigger := 0];
    var t := multiset(if last != trigger then [last] else []);
    assert nodes == init + [last];
    assert multiset(nodes) == multiset(init) + multiset{last};
    forall x
      ensures m'[x] == m[x] + t[x]
    {
      if x == trigger {
        assert m'[x] == 0 && m[x] == 0 && t[x] == 0;
      }
    }
    assert m' == m + t;
  }

  /** The sibling failures name every accumulated node as often as it was
      accumulated, except the trigger, which they never name. */
  lemma {:induction false} SiblingFailuresMultiset(nodes: seq<NodeName>, groupId: GroupId, trigger: NodeName)
    ensures multiset(RecordedNodes(SiblingFailures(nodes, groupId, trigger))) == multiset(nodes)[trigger := 0]
  {
    if nodes != [] {
      var init := nodes[..|nodes| - 1];
      var last := nodes[|nodes| - 1];
      var prefix := SiblingFailures(init, groupId, trigger);
      var tail := if last != trigger then [Record(last, FailedToDelete(AbortedBySibling(groupId, trigger)))] else [];
      var names: seq<NodeName> := if last != trigger then [last] else [];
      RecordedNodesAppend(prefix, tail);
      assert RecordedNodes(tail) == names by {
        if last != trigger {
          assert tail[..0] == [];
        }
      }
      SiblingFailuresMultiset(init, groupId, trigger);
      DropLast(nodes, trigger);
      calc {
        multiset(RecordedNodes(SiblingFailures(nodes, groupId, trigger)));
        multiset(RecordedNodes(prefix + tail));
        multiset(RecordedNodes(prefix) + names);
        multiset(RecordedNodes(prefix)) + multiset(names);
        multiset(init)[trigger := 0] + multiset(names);
        multiset(nodes)[trigger := 0];
      }
    }
  }

  /** Aborting a member the group is holding back moves that node from held
      back to recorded: the trigger is recorded once, with the caller's
      result, and every other held-back node once, with its sibling failure,
      so nothing is gained or lost. */
  lemma AbortHeldBackAccounts(s: State, node: NodeName, groupId: GroupId, result: NodeDeleteResult)
    requires groupId in s.groups && s.groups[groupId].phase == Accumulating
    requires multiset(s.groups[groupId].accumulated)[node] == 1
    ensures Accounted(Abort(s, node, groupId, result), groupId) == Accounted(s, groupId)
  {
    var acc := s.groups[groupId];
    var s' := Abort(s, node, groupId, result);
    var tail := [Record(node, result)] + SiblingFailures(acc.accumulated, groupId, node);
    HeldBackTailNodes(acc, node, groupId, result);
    assert s'.recorded == s.recorded + tail;
    assert Pending(s', groupId) == [];
    assert Pending(s, groupId) == acc.accumulated;
    RecordsAccounting(s, s', groupId, tail, multiset{});
  }

  /** The tail an abort of a held-back member registers names every node the
      group held back, the trigger included, once each. */
  lemma HeldBackTailNodes(acc: Accumulator, node: NodeName, groupId: GroupId, result: NodeDeleteResult)
    requires multiset(acc.accumulated)[node] == 1
    ensures multiset(RecordedNodes([Record(node, result)] + SiblingFailures(acc.accumulated, groupId, node)))
            == multiset(acc.accumulated)
  {
    var own := [Record(node, result)];
    var siblings := SiblingFailures(acc.accumulated, groupId, node);
    var m := multiset(acc.accumulated);
    assert own[..0] == [];
    assert RecordedNodes(own) == [node];
    SiblingFailuresMultiset(acc.accumulated, groupId, node);
    RecordedNodesAppend(own, siblings);
    RestoreOnce(m, node);
    calc {
      multiset(RecordedNodes(own + siblings));
      multiset([node] + RecordedNodes(siblings));
      multiset{node} + multiset(RecordedNodes(siblings));
      multiset{node} + m[node := 0];
      m;
    }
  }

  /** Putting back the one occurrence that was dropped restores a multiset. */
  lemma RestoreOnce(m: multiset<NodeName>, node: NodeName)
    requires m[node] == 1
    ensures multiset{node} + m[node := 0] == m
  {
    forall x
      ensures (multiset{node} + m[node := 0])[x] == m[x]
    {
    }
  }

  /** The scheduler proper. The batcher and the tracker are injected; the
      accumulators are its own. */
  class GroupDeletionScheduler {
    const tracker: NodeDeletionTracker
    const batcher: CountingBatcher
    var groups: map<GroupId, Accumulator>

    ghost predicate Valid()
      reads this, tracker, batcher
    {
      tracker.Valid() && batcher.Valid() && Inv(Model())
    }

    /** The abstract state this object and its collaborators stand for. */
    ghost function Model(): State
      reads this, tracker, batcher
    {
      State(groups, batcher.calls, tracker.log)
    }

    /** `NewGroupDeletionScheduler(ctx, tracker, batcher, evictor)`. The
        batcher may already have been used, for non-atomic groups only: an
        atomic batch needs the accumulator that flushed it. */
    constructor (tracker: NodeDeletionTracker, batcher: CountingBatcher)
      requires tracker.Valid() && batcher.Valid()
      requires forall i :: 0 <= i < |batcher.calls| ==> !batcher.calls[i].group.atomic
      ensures this.tracker == tracker && this.batcher == batcher
      ensures Valid() && groups == map[]
    {
      this.tracker := tracker;
      this.batcher := batcher;
      groups := map[];
    }

    method ScheduleDeletion(node: NodeName, group: NodeGroup, groupSize: int, drain: bool)
      requires Valid()
      modifies this, tracker, batcher
      ensures Valid()
      ensures Model() == Schedule(old(Model()), node, group, groupSize, drain)
    {
      ScheduleKeepsInv(Model(), node, group, groupSize, drain);
      ApplySchedule(node, group, groupSize, drain);
    }

    /** The state change of `ScheduleDeletion`, apart from the invariant. */
    method ApplySchedule(node: NodeName, group: NodeGroup, groupSize: int, drain: bool)
      requires tracker.Valid() && batcher.Valid()
      modifies this, tracker, batcher
      ensures tracker.Valid() && batcher.Valid()
      ensures Model() == Schedule(old(Model()), node, group, groupSize, drain)
    {
      if !group.atomic {
        batcher.AddNodes([node], group, drain);
        return;
      }
      var acc := if group.id in groups then groups[group.id] else Accumulator(groupSize, [], Accumulating);
      match acc.phase {
        case Aborted =>
          tracker.RegisterResult(node, FailedToDelete(GroupAlreadyAborted(group.id)));
        case Flushed =>
          tracker.RegisterResult(node, FailedToDelete(GroupAlreadyFlushed(group.id)));
        case Accumulating =>
          var nodes := acc.accumulated + [node];
          if |nodes| == acc.targetSize {
            groups := groups[group.id := Accumulator(acc.targetSize, nodes, Flushed)];
            batcher.AddNodes(nodes, group, drain);
          } else {
            groups := groups[group.id := acc.(accumulated := nodes)];
          }
      }
    }

    method AbortNodeDeletion(node: NodeName, groupId: GroupId, drain: bool, reason: string, result: NodeDeleteResult)
      requires Valid()
      modifies this, tracker
      ensures Valid()
      ensures Model() == Abort(old(Model()), node, groupId, result)
    {
      AbortKeepsInv(Model(), node, groupId, result);
      tracker.RegisterResult(node, result);
      if groupId in groups && groups[groupId].phase == Accumulating {
        var acc := groups[groupId];
        groups := groups[groupId := acc.(phase := Aborted)];
        FailSiblings(acc.accumulated, groupId, node);
      }
    }

    /** Registers the sibling failure for every accumulated node but the
        trigger, one by one. */
    method FailSiblings(nodes: seq<NodeName>, groupId: GroupId, trigger: NodeName)
      requires tracker.Valid()
      modifies tracker
      ensures tracker.Valid()
      ensures tracker.log == old(tracker.log) + SiblingFailures(nodes, groupId, trigger)
    {
      var i := 0;
      while i < |nodes|
        invariant 0 <= i <= |nodes|
        invariant tracker.Valid()
        invariant tracker.log == old(tracker.log) + SiblingFailures(nodes[..i], groupId, trigger)
      {
        var other := nodes[i];
        if other != trigger {
          tracker.RegisterResult(other, FailedToDelete(AbortedBySibling(groupId, trigger)));
        }
        assert nodes[..i + 1][..i] == nodes[..i];
        i := i + 1;
      }
      assert nodes[..i] == nodes;
    }
  }
}
