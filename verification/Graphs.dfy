/** The parsed pipeline graph (graph.py). Boolean attributes are as the engine reads them. */
module Graphs {
  import opened Prelude
  import opened Outcomes

  datatype Node = Node(
    id: NodeId,
    shape: string,
    nodeType: string,
    autoStatus: bool,
    goalGate: bool,
    allowPartial: bool,
    mustWrite: bool,
    maxRetries: nat,
    retryTarget: Option<NodeId>,
    fallbackRetryTarget: Option<NodeId>,
    resolvesFull: bool)  // whether fidelity resolution gives "full" for this node
  {
    predicate IsExit() {
      shape == "Msquare" || nodeType == "exit" || Lower(id) == "exit" || Lower(id) == "end"
    }

    predicate IsComponent() {
      shape == "component"
    }
  }

  datatype Edge = Edge(
    source: NodeId,
    target: NodeId,
    labelText: string,
    condition: string,
    weight: int,
    loopRestart: bool)

  datatype Graph = Graph(
    nodes: map<NodeId, Node>,
    edges: seq<Edge>,
    retryTarget: Option<NodeId>,
    fallbackRetryTarget: Option<NodeId>,
    outputs: map<NodeId, set<Key>>,  // what each node is contracted to produce
    refs: map<NodeId, set<Key>>,     // context keys each node's attributes mention
    dotSource: string,
    fingerprint: string)             // what the source text hashes to

  function From(edges: seq<Edge>, id: NodeId): seq<Edge> {
    if edges == [] then []
    else if edges[0].source == id then [edges[0]] + From(edges[1..], id)
    else From(edges[1..], id)
  }

  lemma {:induction false} FromMembers(edges: seq<Edge>, id: NodeId, e: Edge)
    ensures e in From(edges, id) <==> e in edges && e.source == id
  {
    if edges != [] {
      FromMembers(edges[1..], id, e);
      assert e in edges <==> e == edges[0] || e in edges[1..];
    }
  }

  function Outgoing(g: Graph, id: NodeId): seq<Edge> {
    From(g.edges, id)
  }

  /** Every node is stored under its own id and every edge joins two stored nodes. */
  ghost predicate WellFormed(g: Graph) {
    && (forall id :: id in g.nodes ==> g.nodes[id].id == id)
    && (forall e :: e in g.edges ==> e.source in g.nodes && e.target in g.nodes)
  }

  function OutputsOf(g: Graph, id: NodeId): set<Key> {
    if id in g.outputs then g.outputs[id] else {}
  }

  function RefsOf(g: Graph, id: NodeId): set<Key> {
    if id in g.refs then g.refs[id] else {}
  }

  /** `a or b` on node ids: the first that is present and non-empty. */
  function FirstTruthy(a: Option<NodeId>, b: Option<NodeId>): Option<NodeId> {
    if Truthy(a) then a else b
  }
}
