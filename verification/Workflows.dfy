/** Workflow definitions: nodes, connections and the items that travel along them. */
module Workflows {
  import opened Collections
  import opened Digraphs

  type Port = string

  const MAIN_PORT: Port := "main"

  /** A JSON payload, kept as its text. */
  type Json = string

  datatype NodeError = NodeError(message: string, code: string)

  datatype Item = Item(json: Json, error: Option<NodeError>)

  datatype Node = Node(
    id: NodeId,
    kind: string,
    parameters: map<string, string>,
    disabled: bool,
    continueOnFail: bool)

  datatype Connection = Connection(
    sourceNode: NodeId,
    targetNode: NodeId,
    sourcePort: Port,
    sourceIndex: int,
    targetPort: Port,
    targetIndex: int)

  datatype Workflow = Workflow(
    id: string,
    projectId: string,
    nodes: seq<Node>,
    connections: seq<Connection>,
    pinData: map<NodeId, seq<Json>>)

  function Ids(nodes: seq<Node>): seq<NodeId> {
    seq(|nodes|, i requires 0 <= i < |nodes| => nodes[i].id)
  }

  /** The unique sources of the connections that enter n. */
  function Sources(connections: seq<Connection>, n: NodeId): set<NodeId> {
    set c | c in connections && c.targetNode == n :: c.sourceNode
  }

  /** The parent relation a workflow declares. */
  function Shape(w: Workflow): Digraph {
    map n | n in Elems(Ids(w.nodes)) :: Sources(w.connections, n)
  }

  /** Node ids are distinct and every connection joins two of them. */
  ghost predicate WellFormed(w: Workflow) {
    && Distinct(Ids(w.nodes))
    && (forall c | c in w.connections :: c.sourceNode in Ids(w.nodes) && c.targetNode in Ids(w.nodes))
  }

  /** The node with id n. */
  ghost function NodeOf(w: Workflow, n: NodeId): (node: Node)
    requires n in Shape(w)
    ensures node in w.nodes && node.id == n
  {
    var i :| 0 <= i < |w.nodes| && Ids(w.nodes)[i] == n;
    w.nodes[i]
  }

  lemma ShapeClosed(w: Workflow)
    requires WellFormed(w)
    ensures Closed(Shape(w))
  {
  }
}
