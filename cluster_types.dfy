/** The vocabulary shared by the scale-down actuation model: node and group
    identities, the node-group handle, the per-group bucket of nodes and the
    per-node deletion result kept by the deletion tracker. */
module ClusterTypes {
  import opened Wrappers

  /** A node is identified by its name; the scheduler looks at nothing else. */
  type NodeName = string

  /** The stable identity of a node group (`NodeGroup.Id()`). */
  type GroupId = string

  /** A node-group handle: its id, whether its members must be deleted
      together, and the outcome of asking the cloud provider for its target
      size (`NodeGroup.TargetSize()`, which may fail). */
  datatype NodeGroup = NodeGroup(id: GroupId, atomic: bool, targetSize: Result<int, string>)

  /** A bucket of nodes of one group that are scheduled in one pass
      (`budgets.NodeGroupView`). */
  datatype NodeGroupView = NodeGroupView(group: NodeGroup, nodes: seq<NodeName>)

  /** The kind of a terminal per-node outcome. */
  datatype ResultType = NodeDeleteOk | NodeDeleteErrorFailedToDelete | NodeDeleteErrorOther

  /** Why a node's deletion failed. `CallerSupplied` is an error handed in from
      outside the scheduler (a drain failure, say); the other three are the
      failures the scheduler itself produces. */
  datatype DeleteError =
    | CallerSupplied(message: string)
    | AbortedBySibling(groupId: GroupId, trigger: NodeName)
    | GroupAlreadyAborted(groupId: GroupId)
    | GroupAlreadyFlushed(groupId: GroupId)

  /** `status.NodeDeleteResult`: a result kind and an optional cause. */
  datatype NodeDeleteResult = NodeDeleteResult(resultType: ResultType, err: Option<DeleteError>)

  /** The failure the scheduler records for a node it refuses or rolls back. */
  function FailedToDelete(cause: DeleteError): NodeDeleteResult
  {
    NodeDeleteResult(NodeDeleteErrorFailedToDelete, Some(cause))
  }
}
