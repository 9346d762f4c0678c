/** The diagram model shared by the structure editor and the monitor view:
    a `{graph, nodes, edges}` record in the shape of the topology library's
    `Model`, the per-node `data` record, and the server logs pushed by the
    status feed. */
module Topology {
  import opened Common

  /** A node's status: one of the topology library's statuses, or any other
      text a stored diagram carries (the backend keeps statuses as strings). */
  datatype Status = Default | Info | Success | Warning | Danger | Other(text: string)

  /** The icon components `getIconComponent` can return. */
  datatype IconKind = ServerIcon | BranchIcon | DepartmentIcon

  /** What a node's `data.icon` holds. */
  datatype IconRef =
    | Named(name: string)        // the string tag the backend stores ("ServerIcon", "ClusterIcon", ...)
    | Component(kind: IconKind)  // an icon component, as the structure editor sets it on load
    | Asset(kind: IconKind)      // an imported svg picture of that kind, as the add commands set it

  /** A `{success, time}` pair of a server log (its `FS` and `NIS` checks). */
  datatype Check = Check(success: string, time: string)

  /** The health fields a server log carries and the merge copies into a node's data. */
  datatype Health = Health(
    server: string, iptables: string, cpu: string, ram: string,
    hardHome: string, hardRoot: string, hardLog: string,
    fs: Check, nis: Check)

  datatype NodeData = NodeData(
    icon: Option<IconRef>,
    ipAddress: Option<string>,  // absent on the data a group gets back from the backend
    isRoot: Option<bool>,
    badge: Option<string>,
    health: Option<Health>)

  /** Shape, size and position of a node, copied around as one unit. */
  datatype Geometry = Geometry(
    shape: Option<string>, width: Option<int>, height: Option<int>,
    x: Option<int>, y: Option<int>)

  /** A node of the diagram. `displayLabel` is its `label`, `kind` its `type`
      ("node" or "group") and `padding` its `style.padding`; groups made by
      the editor have no `data`. */
  datatype Node = Node(
    id: string,
    displayLabel: string,
    kind: string,
    group: Option<bool>,
    children: seq<string>,
    status: Option<Status>,
    geometry: Geometry,
    padding: Option<int>,
    data: Option<NodeData>)

  /** The topology library's edge styles and animation speeds. */
  datatype EdgeStyle = DefaultStyle | Solid | Dotted | Dashed
  datatype AnimationSpeed = NoAnimation | Slow | Medium | Fast

  datatype Edge = Edge(
    id: string,
    source: string,
    target: string,
    kind: string,
    edgeStyle: Option<EdgeStyle>,
    animationSpeed: Option<AnimationSpeed>)

  datatype Graph = Graph(id: string, kind: string, layout: string)

  datatype Model = Model(graph: Graph, nodes: seq<Node>, edges: seq<Edge>)

  /** One record of the status feed. */
  datatype ServerLog = ServerLog(ip: string, health: Health, isAlarm: bool, confirmed: bool)

  const NODE_TYPE := "node"
  const GROUP_TYPE := "group"
  const EDGE_TYPE := "edge"
  const DEFAULT_GRAPH := Graph("graph", "graph", "Cola")
  const EMPTY_MODEL := Model(DEFAULT_GRAPH, [], [])

  /** `nodes.some(item => item.id === id)` */
  predicate IsInNodes(nodes: seq<Node>, id: string)
    ensures IsInNodes(nodes, id) <==> id in Ids(nodes)
  {
    exists i | 0 <= i < |nodes| :: nodes[i].id == id
  }

  /** The node ids, in order. */
  function Ids(nodes: seq<Node>): (r: seq<string>)
    ensures |r| == |nodes|
    ensures forall i :: 0 <= i < |nodes| ==> r[i] == nodes[i].id
  {
    if nodes == [] then [] else [nodes[0].id] + Ids(nodes[1..])
  }

  /** No two nodes share an id. */
  predicate DistinctIds(nodes: seq<Node>)
  {
    forall i, j :: 0 <= i < j < |nodes| ==> nodes[i].id != nodes[j].id
  }

  /** `item.data?.ipAddress === ip` */
  predicate HasIp(n: Node, ip: string)
  {
    n.data.Some? && n.data.value.ipAddress == Some(ip)
  }

  /** `item.data?.ipAddress`: absent when the node has no data or its data no IP. */
  function IpOf(n: Node): (r: Option<string>)
    ensures r.Some? <==> n.data.Some? && n.data.value.ipAddress.Some?
    ensures forall ip :: r == Some(ip) <==> HasIp(n, ip)
  {
    if n.data.Some? then n.data.value.ipAddress else None
  }

  /** `getNode`: the first node with the given id, or `None` (the source's `null`). */
  function GetNode(nodes: seq<Node>, id: string): (r: Option<Node>)
    ensures r.None? <==> !IsInNodes(nodes, id)
    ensures r.Some? ==> r.value in nodes && r.value.id == id
    ensures r.Some? ==> exists i :: 0 <= i < |nodes| && nodes[i] == r.value && forall k :: 0 <= k < i ==> nodes[k].id != id
  {
    match FirstIndex(nodes, (n: Node) => n.id == id)
    case None => None
    case Some(i) => Some(nodes[i])
  }

  /** Every node carries a `data` record; the loads stop at a node without one. */
  predicate AllHaveData(nodes: seq<Node>)
  {
    forall i :: 0 <= i < |nodes| ==> nodes[i].data.Some?
  }

  /** What the `READ_DIAGRAM` query delivers: an error, no data (the query
      has not answered yet, or answered empty), an answer whose `readDiagram`
      is null, or a stored diagram. */
  datatype DiagramResponse =
    | QueryError
    | NoDiagram
    | NullDiagram
    | Loaded(graph: Graph, nodes: seq<Node>, edges: seq<Edge>)

  /** Every edge joins two nodes of the model (no dangling edge). */
  predicate EdgesAttached(m: Model)
  {
    forall e :: e in m.edges ==> IsInNodes(m.nodes, e.source) && IsInNodes(m.nodes, e.target)
  }

  /** The label a node shows for an IP: the resolved title, or the IP itself
      when the title is empty. A node without an IP and with an empty title is
      labelled `undefined` in the source; here it gets the empty label. */
  function LabelFor(ip: Option<string>, title: string): (r: string)
    ensures title == "" && ip.Some? ==> r == ip.value
    ensures title == "" && ip.None? ==> r == ""
    ensures title != "" ==> r == title
  {
    if title != "" then title
    else match ip
      case Some(address) => address
      case None => ""
  }

  /** `updateCaption`, common to both diagrams: the first node whose id is the
      first selected id gets `caption` as its IP and the resolved title (or the
      caption) as its label. `None` stands for the TypeError the source runs
      into when there is no such node or the node has no `data`; the model is
      then left alone. */
  function Recaption(nodes: seq<Node>, selectedIds: seq<string>, caption: string, title: string): (r: Option<seq<Node>>)
    ensures r.Some? <==> selectedIds != [] && GetNode(nodes, selectedIds[0]).Some? && GetNode(nodes, selectedIds[0]).value.data.Some?
    ensures r.Some? ==> |r.value| == |nodes|
    ensures r.Some? ==> exists i :: (
      && 0 <= i < |nodes| && nodes[i].id == selectedIds[0]
      && (forall k :: 0 <= k < i ==> nodes[k].id != selectedIds[0])
      && (forall k :: 0 <= k < |nodes| && k != i ==> r.value[k] == nodes[k])
      && r.value[i].displayLabel == LabelFor(Some(caption), title)
      && r.value[i].data.Some? && r.value[i].data.value.ipAddress == Some(caption)
      && r.value[i].(displayLabel := nodes[i].displayLabel, data := nodes[i].data) == nodes[i]
      && r.value[i].data.value.(ipAddress := nodes[i].data.value.ipAddress) == nodes[i].data.value)
  {
    if selectedIds == [] then None
    else match FirstIndex(nodes, (n: Node) => n.id == selectedIds[0])
      case None => None
      case Some(i) =>
        if nodes[i].data.None? then None
        else
          var d := nodes[i].data.value;
          var renamed := nodes[i].(displayLabel := LabelFor(Some(caption), title), data := Some(d.(ipAddress := Some(caption))));
          var r := nodes[i := renamed];
          assert r[i] == renamed && nodes[i].id == selectedIds[0];
          Some(r)
  }
}
