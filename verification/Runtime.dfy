/** The mutable record of one run. */
module Runtime {
  import opened Collections
  import opened Digraphs
  import opened Workflows
  import opened WorkflowGraphs
  import opened Dataflow

  datatype ExecutionStatus = ExecutionSucceeded | ExecutionErrored

  /** The finished run: per-node run data, with the order in which nodes were first recorded. */
  datatype Execution = Execution(
    workflow: Workflow,
    order: seq<NodeId>,
    perNode: map<NodeId, seq<NodeRunData>>,
    status: ExecutionStatus)

  class RunState {
    const workflow: Workflow
    var order: seq<NodeId>
    var perNode: map<NodeId, seq<NodeRunData>>
    var perNodeOutputs: map<NodeId, seq<seq<Item>>>
    var failedNodeId: Option<NodeId>

    constructor (workflow: Workflow)
      ensures this.workflow == workflow
      ensures order == [] && perNode == map[] && perNodeOutputs == map[] && failedNodeId == None
    {
      this.workflow := workflow;
      order, perNode, perNodeOutputs, failedNodeId := [], map[], map[], None;
    }

    method Record(n: NodeId, data: NodeRunData)
      modifies this`order, this`perNode, this`perNodeOutputs
      ensures order == if n in old(perNode) then old(order) else old(order) + [n]
      ensures perNode == old(perNode)[n := Bucket(old(perNode), n) + [data]]
      ensures perNodeOutputs ==
              if data.status.Errored? && data.items == [] then old(perNodeOutputs)
              else old(perNodeOutputs)[n := data.items]
    {
      if n !in perNode {
        order := order + [n];
      }
      perNode := perNode[n := Bucket(perNode, n) + [data]];
      if !data.status.Errored? || data.items != [] {
        perNodeOutputs := perNodeOutputs[n := data.items];
      }
    }

    method MarkFailed(n: NodeId)
      modifies this`failedNodeId
      ensures failedNodeId == Some(n)
    {
      failedNodeId := Some(n);
    }

    /** The final status tests the failed id for truth, so a failed node with an empty id goes unnoticed. */
    method BuildExecution() returns (e: Execution)
      ensures e.workflow == workflow && e.order == order && e.perNode == perNode
      ensures e.status.ExecutionErrored? <==> failedNodeId.Some? && failedNodeId.value != ""
    {
      var failed := failedNodeId.Some? && failedNodeId.value != "";
      e := Execution(workflow, order, perNode, if failed then ExecutionErrored else ExecutionSucceeded);
    }
  }
}
