/** The structure editor: the toolbar commands that add, connect, disconnect,
    delete, group and rename nodes of an organisation's diagram, the save
    payload, and the load that turns a stored diagram into the editor's model
    (label from the IP title, icon name resolved to an icon component, then
    the status merge). */
module StructureEditor {
  import opened Common
  import opened Topology
  import opened StatusMerge

  /** The toolbar commands (`DrawItemType`). */
  datatype DrawItemType =
    | AddBranch | AddDepartment | AddRouter | AddSwitch | AddFirewall | AddServer
    | Connect | ConnectByIsolator | Disconnect | Group | Delete | Rename | SaveDiagram

  const NODE_DIAMETER := 75
  const NEW_NODE_POSITION := 100
  const GROUP_PADDING := 40

  /** The title and picture `getIcon` gives an add command. */
  datatype IconData = IconData(title: string, icon: IconRef)

  /** `getIcon`: only the branch, department and server commands have a picture. */
  function GetIcon(item: DrawItemType): (r: Option<IconData>)
    ensures r.Some? <==> item in {AddBranch, AddDepartment, AddServer}
    ensures item == AddServer ==> r == Some(IconData("Server", Asset(ServerIcon)))
  {
    match item
    case AddBranch => Some(IconData("Branch", Asset(BranchIcon)))
    case AddDepartment => Some(IconData("Department", Asset(DepartmentIcon)))
    case AddServer => Some(IconData("Server", Asset(ServerIcon)))
    case _ => None
  }

  // ---------------------------------------------------------------------------
  // Fresh node ids

  /** The id of the `i`-th added node, `node-i`. */
  function NodeId(i: nat): string
  {
    "node-" + NatToString(i)
  }

  lemma NodeIdInjective(i: nat, j: nat)
    requires NodeId(i) == NodeId(j)
    ensures i == j
  {
    assert NatToString(i) == NodeId(i)[5..];
    assert NatToString(j) == NodeId(j)[5..];
    NatToStringInjective(i, j);
  }

  function FreeFrom(nodes: seq<Node>, i: nat): (r: nat)
    requires i <= |nodes|
    ensures i <= r <= |nodes|
    ensures forall j :: i <= j < r ==> IsInNodes(nodes, NodeId(j))
    ensures r < |nodes| ==> !IsInNodes(nodes, NodeId(r))
    decreases |nodes| - i
  {
    if i == |nodes| || !IsInNodes(nodes, NodeId(i)) then i else FreeFrom(nodes, i + 1)
  }

  /** The least `i` below the node count such that `node-i` is unused, or the node count. */
  function FirstFreeIndex(nodes: seq<Node>): (r: nat)
    ensures r <= |nodes|
    ensures forall j :: 0 <= j < r ==> IsInNodes(nodes, NodeId(j))
    ensures r < |nodes| ==> !IsInNodes(nodes, NodeId(r))
  {
    FreeFrom(nodes, 0)
  }

  /** The two conditions on `FirstFreeIndex` single out one number. */
  lemma FreeIndexUnique(nodes: seq<Node>, a: nat, b: nat)
    requires a <= |nodes| && (forall j :: 0 <= j < a ==> IsInNodes(nodes, NodeId(j))) && (a < |nodes| ==> !IsInNodes(nodes, NodeId(a)))
    requires b <= |nodes| && (forall j :: 0 <= j < b ==> IsInNodes(nodes, NodeId(j))) && (b < |nodes| ==> !IsInNodes(nodes, NodeId(b)))
    ensures a == b
  {
  }

  /** The ids `node-0` .. `node-(k-1)`. */
  function NodeIdSet(k: nat): set<string>
  {
    set j | 0 <= j < k :: NodeId(j)
  }

  lemma {:induction false} NodeIdSetSize(k: nat)
    ensures |NodeIdSet(k)| == k
  {
    if k > 0 {
      NodeIdSetSize(k - 1);
      var older := NodeIdSet(k - 1);
      assert NodeIdSet(k) == older + {NodeId(k - 1)} by {
        forall x | x in NodeIdSet(k) ensures x in older + {NodeId(k - 1)} {
          var j :| 0 <= j < k && x == NodeId(j);
          if j < k - 1 {
            assert x in older;
          }
        }
      }
      assert NodeId(k - 1) !in older by {
        if NodeId(k - 1) in older {
          var j :| 0 <= j < k - 1 && NodeId(j) == NodeId(k - 1);
          NodeIdInjective(j, k - 1);
        }
      }
    }
  }

  /** The set of ids the nodes use. */
  function IdSet(nodes: seq<Node>): set<string>
  {
    set i | 0 <= i < |nodes| :: nodes[i].id
  }

  lemma {:induction false} IdSetSize(nodes: seq<Node>)
    ensures |IdSet(nodes)| <= |nodes|
  {
    if nodes != [] {
      var init := nodes[..|nodes| - 1];
      IdSetSize(init);
      assert IdSet(nodes) == IdSet(init) + {nodes[|nodes| - 1].id};
    }
  }

  lemma SubsetSize(a: set<string>, b: set<string>)
    requires a <= b
    ensures |a| <= |b|
  {
    assert b == a + (b - a);
  }

  /** The id `getNewId` hands out is used by no node: when all of `node-0` ..
      `node-(n-1)` are taken by the `n` nodes, `node-n` cannot be taken too. */
  lemma NewIdIsFresh(nodes: seq<Node>)
    ensures !IsInNodes(nodes, NodeId(FirstFreeIndex(nodes)))
  {
    var n := FirstFreeIndex(nodes);
    if n == |nodes| && IsInNodes(nodes, NodeId(n)) {
      var names := NodeIdSet(n + 1);
      forall x | x in names ensures x in IdSet(nodes) {
        var j :| 0 <= j < n + 1 && x == NodeId(j);
        assert IsInNodes(nodes, NodeId(j));
        var i :| 0 <= i < |nodes| && nodes[i].id == x;
      }
      NodeIdSetSize(n + 1);
      IdSetSize(nodes);
      SubsetSize(names, IdSet(nodes));
      assert false;
    }
  }

  /** `getNewId`: scans `node-0`, `node-1`, ... and returns the first index not in use. */
  method GetNewId(nodes: seq<Node>) returns (n: nat)
    ensures n == FirstFreeIndex(nodes)
    ensures n <= |nodes|
    ensures forall j :: 0 <= j < n ==> IsInNodes(nodes, NodeId(j))
    ensures !IsInNodes(nodes, NodeId(n))
  {
    var length := |nodes|;
    for i := 0 to length
      invariant forall j :: 0 <= j < i ==> IsInNodes(nodes, NodeId(j))
    {
      var nodeIndex := NodeId(i);
      var index := FirstIndex(nodes, (item: Node) => item.id == nodeIndex);
      if index.None? {
        assert !IsInNodes(nodes, nodeIndex);
        FreeIndexUnique(nodes, i, FirstFreeIndex(nodes));
        return i;
      }
      assert nodes[index.value].id == nodeIndex;
    }
    FreeIndexUnique(nodes, length, FirstFreeIndex(nodes));
    NewIdIsFresh(nodes);
    return length;
  }

  // ---------------------------------------------------------------------------
  // The commands, each on the model it is given

  /** `selectedIds.filter(isInNodes)`: the selected ids that name a node, in selection order. */
  function SelectedItems(nodes: seq<Node>, selectedIds: seq<string>): (r: seq<string>)
    ensures IsSubsequence(r, selectedIds)
    ensures forall id :: id in r <==> id in selectedIds && IsInNodes(nodes, id)
  {
    FilterIsSubsequence(selectedIds, (id: string) => IsInNodes(nodes, id));
    Filter(selectedIds, (id: string) => IsInNodes(nodes, id))
  }

  /** The node an add command creates with number `n`: id `node-n`, label
      `<title>-n`, and that label doubling as its IP until it is renamed. */
  function NewNode(n: nat, icon: IconData): (r: Node)
    ensures r.id == NodeId(n) && r.kind == NODE_TYPE && r.children == [] && !EmptyGroup(r)
    ensures r.displayLabel == icon.title + "-" + NatToString(n)
    ensures r.data.Some? && r.data.value.icon == Some(icon.icon) && IpOf(r) == Some(r.displayLabel)
  {
    var name := icon.title + "-" + NatToString(n);
    Node(NodeId(n), name, NODE_TYPE, None, [], None,
      Geometry(Some("hexagon"), Some(NODE_DIAMETER), Some(NODE_DIAMETER), Some(NEW_NODE_POSITION), Some(NEW_NODE_POSITION)),
      None, Some(NodeData(Some(icon.icon), Some(name), None, None, None)))
  }

  predicate IsAddDevice(item: DrawItemType)
  {
    item in {AddServer, AddRouter, AddSwitch, AddFirewall}
  }

  /** ADD_SERVER / ADD_ROUTER / ADD_SWITCH / ADD_FIREWALL: only the server has a
      picture, so only it appends a node; the others leave the model alone. */
  function AddNode(m: Model, item: DrawItemType): (r: Model)
    requires IsAddDevice(item)
    ensures item != AddServer ==> r == m
    ensures item == AddServer ==> r.graph == m.graph && r.edges == m.edges
    ensures item == AddServer ==> |r.nodes| == |m.nodes| + 1 && r.nodes[..|m.nodes|] == m.nodes
    ensures item == AddServer ==> !IsInNodes(m.nodes, r.nodes[|m.nodes|].id)
    ensures item == AddServer ==> r.nodes[|m.nodes|] == NewNode(FirstFreeIndex(m.nodes), IconData("Server", Asset(ServerIcon)))
    ensures item == AddServer ==>
      && r.nodes[|m.nodes|].id == "node-" + NatToString(FirstFreeIndex(m.nodes))
      && r.nodes[|m.nodes|].displayLabel == "Server-" + NatToString(FirstFreeIndex(m.nodes))
      && r.nodes[|m.nodes|].data == Some(NodeData(Some(Asset(ServerIcon)), Some("Server-" + NatToString(FirstFreeIndex(m.nodes))), None, None, None))
  {
    match GetIcon(item)
    case None => m
    case Some(icon) =>
      NewIdIsFresh(m.nodes);
      m.(nodes := m.nodes + [NewNode(FirstFreeIndex(m.nodes), icon)])
  }

  /** An add command with an icon appends the new node to the model it is given. */
  lemma AddNodeWith(m: Model, item: DrawItemType, icon: IconData)
    requires IsAddDevice(item) && GetIcon(item) == Some(icon)
    ensures AddNode(m, item) == m.(nodes := m.nodes + [NewNode(FirstFreeIndex(m.nodes), icon)])
  {
  }

  /** Adding a node never creates a duplicate id. */
  lemma AddKeepsIdsDistinct(m: Model, item: DrawItemType)
    requires IsAddDevice(item)
    requires DistinctIds(m.nodes)
    ensures DistinctIds(AddNode(m, item).nodes)
  {
    var r := AddNode(m, item);
    if item == AddServer {
      forall i, j | 0 <= i < j < |r.nodes| ensures r.nodes[i].id != r.nodes[j].id {
        if j == |m.nodes| {
          assert r.nodes[i] == m.nodes[i];
        } else {
          assert r.nodes[i] == m.nodes[i] && r.nodes[j] == m.nodes[j];
        }
      }
    }
  }

  /** The id of an edge from `a` to `b`. */
  function EdgeId(a: string, b: string): string
  {
    "edge-" + a + "-" + b
  }

  /** The edge's id says it links `a` and `b`, in either direction. */
  predicate Links(e: Edge, a: string, b: string)
  {
    e.id == EdgeId(a, b) || e.id == EdgeId(b, a)
  }

  /** The edge CONNECT (plain) or CONNECT_BY_ISOLATOR (dashed, slowly animated) draws from `a` to `b`. */
  function LinkEdge(a: string, b: string, isolator: bool): (r: Edge)
    ensures r.source == a && r.target == b && Links(r, a, b) && Links(r, b, a)
    ensures r.edgeStyle == Some(Dashed) <==> isolator
    ensures r.animationSpeed == Some(Slow) <==> isolator
    ensures r.animationSpeed.Some? && r.edgeStyle.Some?
  {
    Edge(EdgeId(a, b), a, b, EDGE_TYPE,
      Some(if isolator then Dashed else DefaultStyle),
      Some(if isolator then Slow else NoAnimation))
  }

  predicate CanConnect(m: Model, sel: seq<string>)
  {
    |sel| >= 2 && IsInNodes(m.nodes, sel[0]) && IsInNodes(m.nodes, sel[1])
  }

  /** CONNECT / CONNECT_BY_ISOLATOR: any edge already linking the first two
      selected nodes is replaced by one new edge, appended at the end. */
  function ConnectNodes(m: Model, sel: seq<string>, isolator: bool): (r: Model)
    ensures !CanConnect(m, sel) ==> r == m
    ensures CanConnect(m, sel) ==> r.nodes == m.nodes && r.graph == DEFAULT_GRAPH && |r.edges| > 0
    ensures CanConnect(m, sel) ==> r.edges[|r.edges| - 1] == LinkEdge(sel[0], sel[1], isolator)
    ensures CanConnect(m, sel) ==> forall i :: 0 <= i < |r.edges| - 1 ==> !Links(r.edges[i], sel[0], sel[1])
    ensures CanConnect(m, sel) ==> forall e :: e in r.edges[..|r.edges| - 1] <==> e in m.edges && !Links(e, sel[0], sel[1])
    ensures CanConnect(m, sel) ==> IsSubsequence(r.edges[..|r.edges| - 1], m.edges)
  {
    if !CanConnect(m, sel) then m
    else
      var kept := UnlinkedEdges(m.edges, sel[0], sel[1]);
      var edges := kept + [LinkEdge(sel[0], sel[1], isolator)];
      assert edges[..|kept|] == kept;
      m.(edges := edges, graph := DEFAULT_GRAPH)
  }

  /** `edges.filter(...)` of CONNECT: the edges that do not link `a` and `b`, in order. */
  function UnlinkedEdges(edges: seq<Edge>, a: string, b: string): (r: seq<Edge>)
    ensures forall i :: 0 <= i < |r| ==> !Links(r[i], a, b)
    ensures forall e :: e in r <==> e in edges && !Links(e, a, b)
    ensures IsSubsequence(r, edges)
  {
    FilterIsSubsequence(edges, (e: Edge) => !Links(e, a, b));
    var r := Filter(edges, (e: Edge) => !Links(e, a, b));
    assert forall i :: 0 <= i < |r| ==> r[i] in r;
    r
  }

  /** Connecting two nodes one way and then the other leaves a single edge between them, the later one. */
  lemma ReconnectLeavesOneEdge(m: Model, a: string, b: string, first: bool, second: bool)
    requires IsInNodes(m.nodes, a) && IsInNodes(m.nodes, b)
    ensures var r := ConnectNodes(ConnectNodes(m, [a, b], first), [b, a], second);
      && r.edges[|r.edges| - 1] == LinkEdge(b, a, second)
      && forall i :: 0 <= i < |r.edges| - 1 ==> !Links(r.edges[i], a, b)
  {
    var once := ConnectNodes(m, [a, b], first);
    assert CanConnect(once, [b, a]);
  }

  /** DISCONNECT: the first edge linking the first two selected ids, in either direction, is removed. */
  function DisconnectNodes(m: Model, sel: seq<string>): (r: Model)
    ensures |sel| < 2 ==> r == m
    ensures |sel| >= 2 && (forall k :: 0 <= k < |m.edges| ==> !Links(m.edges[k], sel[0], sel[1])) ==> r == m
    ensures |sel| >= 2 && (exists k :: 0 <= k < |m.edges| && Links(m.edges[k], sel[0], sel[1])) ==>
      exists i :: (
        && 0 <= i < |m.edges| && Links(m.edges[i], sel[0], sel[1])
        && (forall k :: 0 <= k < i ==> !Links(m.edges[k], sel[0], sel[1]))
        && r == Model(DEFAULT_GRAPH, m.nodes, RemoveAt(m.edges, i)))
  {
    if |sel| < 2 then m
    else
      var a, b := sel[0], sel[1];
      match FirstIndex(m.edges, (e: Edge) => Links(e, a, b))
      case None => m
      case Some(i) => m.(graph := DEFAULT_GRAPH, edges := RemoveAt(m.edges, i))
  }

  /** After CONNECT, DISCONNECT of the same two nodes (selected in either order) leaves no edge between them. */
  lemma ConnectThenDisconnect(m: Model, a: string, b: string, isolator: bool, reversed: bool)
    requires IsInNodes(m.nodes, a) && IsInNodes(m.nodes, b)
    ensures var r := DisconnectNodes(ConnectNodes(m, [a, b], isolator), if reversed then [b, a] else [a, b]);
      forall e :: e in r.edges ==> !Links(e, a, b)
  {
    assert CanConnect(m, [a, b]);
    var c := ConnectNodes(m, [a, b], isolator);
    var sel := if reversed then [b, a] else [a, b];
    DisconnectLast(c, sel);
  }

  /** When the last edge is the only one linking the first two selected ids,
      DISCONNECT removes exactly that edge. */
  lemma DisconnectLast(m: Model, sel: seq<string>)
    requires |sel| >= 2 && |m.edges| > 0
    requires Links(m.edges[|m.edges| - 1], sel[0], sel[1])
    requires forall i :: 0 <= i < |m.edges| - 1 ==> !Links(m.edges[i], sel[0], sel[1])
    ensures DisconnectNodes(m, sel).edges == m.edges[..|m.edges| - 1]
  {
    var found := FirstIndex(m.edges, (e: Edge) => Links(e, sel[0], sel[1]));
    assert found == Some(|m.edges| - 1);
  }

  /** A group loses the selected ids from its children; other nodes are kept as they are. */
  function StripChildren(n: Node, sel: seq<string>): Node
  {
    if n.kind == GROUP_TYPE then n.(children := Filter(n.children, (c: string) => c !in sel)) else n
  }

  function StripAll(nodes: seq<Node>, sel: seq<string>): (r: seq<Node>)
    ensures |r| == |nodes|
    ensures forall i :: 0 <= i < |nodes| ==> r[i] == StripChildren(nodes[i], sel)
  {
    seq(|nodes|, i requires 0 <= i < |nodes| => StripChildren(nodes[i], sel))
  }

  /** The edge touches a selected node (an empty endpoint id counts as absent, as JavaScript's truthiness test has it). */
  predicate Touches(e: Edge, sel: seq<string>)
    ensures "" !in sel ==> (Touches(e, sel) <==> e.source in sel || e.target in sel)
    ensures Touches(e, sel) ==> e.source in sel || e.target in sel
  {
    (e.source != "" && e.source in sel) || (e.target != "" && e.target in sel)
  }

  /** After stripping, no group names a selected id among its children. */
  lemma StrippedGroupsForget(nodes: seq<Node>, sel: seq<string>)
    ensures forall n, c :: n in StripAll(nodes, sel) && n.kind == GROUP_TYPE && c in n.children ==> c !in sel
  {
    var stripped := StripAll(nodes, sel);
    forall n, c | n in stripped && n.kind == GROUP_TYPE && c in n.children ensures c !in sel {
      var i :| 0 <= i < |stripped| && stripped[i] == n;
      assert n == StripChildren(nodes[i], sel);
    }
  }

  /** Every node of the model appears, stripped, in the stripped list. */
  lemma StrippedKeepsNodes(nodes: seq<Node>, sel: seq<string>)
    ensures forall n :: n in nodes ==> StripChildren(n, sel) in StripAll(nodes, sel)
  {
    var stripped := StripAll(nodes, sel);
    forall n | n in nodes ensures StripChildren(n, sel) in stripped {
      var i :| 0 <= i < |nodes| && nodes[i] == n;
      assert stripped[i] == StripChildren(n, sel);
    }
  }

  /** The nodes DELETE keeps. */
  function KeptNodes(nodes: seq<Node>, sel: seq<string>): (r: seq<Node>)
    ensures forall n :: n in r ==> n.id !in sel
    ensures forall n, c :: n in r && n.kind == GROUP_TYPE && c in n.children ==> c !in sel
    ensures forall n :: n in nodes && n.id !in sel ==> StripChildren(n, sel) in r
    ensures IsSubsequence(r, StripAll(nodes, sel))
  {
    var stripped := StripAll(nodes, sel);
    StrippedGroupsForget(nodes, sel);
    StrippedKeepsNodes(nodes, sel);
    FilterIsSubsequence(stripped, (n: Node) => n.id !in sel);
    Filter(stripped, (n: Node) => n.id !in sel)
  }

  /** The edges DELETE keeps. */
  function KeptEdges(edges: seq<Edge>, sel: seq<string>): (r: seq<Edge>)
    ensures forall e :: e in r <==> e in edges && !Touches(e, sel)
    ensures IsSubsequence(r, edges)
  {
    FilterIsSubsequence(edges, (e: Edge) => !Touches(e, sel));
    Filter(edges, (e: Edge) => !Touches(e, sel))
  }

  /** DELETE: the selected nodes and every edge touching them disappear, and
      groups forget the selected children; everything else keeps its order. */
  function DeleteNodes(m: Model, sel: seq<string>): (r: Model)
    ensures sel == [] ==> r == m
    ensures sel != [] ==> r.graph == DEFAULT_GRAPH
    ensures sel != [] ==> forall n :: n in r.nodes ==> n.id !in sel
    ensures sel != [] ==> forall n, c :: n in r.nodes && n.kind == GROUP_TYPE && c in n.children ==> c !in sel
    ensures sel != [] ==> forall n :: n in m.nodes && n.id !in sel ==> StripChildren(n, sel) in r.nodes
    ensures sel != [] ==> IsSubsequence(r.nodes, StripAll(m.nodes, sel))
    ensures sel != [] ==> forall e :: e in r.edges <==> e in m.edges && !Touches(e, sel)
    ensures sel != [] ==> IsSubsequence(r.edges, m.edges)
  {
    if sel == [] then m
    else Model(DEFAULT_GRAPH, KeptNodes(m.nodes, sel), KeptEdges(m.edges, sel))
  }

  /** DELETE leaves no dangling edge behind, as long as no selected node has the empty id. */
  lemma DeleteKeepsEdgesAttached(m: Model, sel: seq<string>)
    requires EdgesAttached(m)
    requires "" !in sel
    ensures EdgesAttached(DeleteNodes(m, sel))
  {
    var r := DeleteNodes(m, sel);
    if sel != [] {
      forall e | e in r.edges ensures IsInNodes(r.nodes, e.source) && IsInNodes(r.nodes, e.target) {
        assert e in m.edges && !Touches(e, sel);
        KeptNodeStays(m.nodes, sel, e.source);
        KeptNodeStays(m.nodes, sel, e.target);
      }
    }
  }

  lemma KeptNodeStays(nodes: seq<Node>, sel: seq<string>, id: string)
    requires IsInNodes(nodes, id) && id !in sel
    ensures IsInNodes(KeptNodes(nodes, sel), id)
  {
    var i :| 0 <= i < |nodes| && nodes[i].id == id;
    var kept := KeptNodes(nodes, sel);
    assert StripChildren(nodes[i], sel) in kept;
    var a :| 0 <= a < |kept| && kept[a] == StripChildren(nodes[i], sel);
    assert kept[a].id == id;
  }

  /** A group without members, which GROUP clears away. */
  predicate EmptyGroup(n: Node)
  {
    n.kind == GROUP_TYPE && n.children == []
  }

  /** The group GROUP creates: id `<joined ids>-<suffix>`, the joined ids as its label. */
  function GroupNode(sel: seq<string>, suffix: string): (r: Node)
    ensures r.kind == GROUP_TYPE && r.group == Some(true) && r.children == sel && r.data.None?
    ensures r.id == r.displayLabel + "-" + suffix
    ensures r.displayLabel == Join(sel, "-")
    ensures |sel| > 0 ==> sel[0] <= r.displayLabel && !EmptyGroup(r)
  {
    var joined := Join(sel, "-");
    Node(joined + "-" + suffix, joined, GROUP_TYPE, Some(true), sel, None,
      Geometry(None, None, None, None, None), Some(GROUP_PADDING), None)
  }

  /** The node list after GROUP: the group pushed, then every group without members filtered out. */
  function Regrouped(nodes: seq<Node>, group: Node): (r: seq<Node>)
    requires !EmptyGroup(group)
    ensures |r| > 0 && r[|r| - 1] == group
    ensures forall n :: n in r ==> !EmptyGroup(n)
    ensures forall n :: n in nodes && !EmptyGroup(n) ==> n in r
    ensures IsSubsequence(r[..|r| - 1], nodes)
  {
    NonEmptyGroupsAppend(nodes, group);
    var r := NonEmptyGroups(nodes + [group]);
    assert r[..|r| - 1] == NonEmptyGroups(nodes);
    r
  }

  /** `filter((item) => !(item.type === "group" && item.children?.length === 0))` */
  function NonEmptyGroups(nodes: seq<Node>): (r: seq<Node>)
    ensures forall n :: n in r <==> n in nodes && !EmptyGroup(n)
    ensures IsSubsequence(r, nodes)
  {
    FilterIsSubsequence(nodes, (n: Node) => !EmptyGroup(n));
    Filter(nodes, (n: Node) => !EmptyGroup(n))
  }

  lemma NonEmptyGroupsAppend(nodes: seq<Node>, group: Node)
    requires !EmptyGroup(group)
    ensures NonEmptyGroups(nodes + [group]) == NonEmptyGroups(nodes) + [group]
  {
    FilterAppend(nodes, [group], (n: Node) => !EmptyGroup(n));
    assert Filter([group], (n: Node) => !EmptyGroup(n)) == [group];
  }

  /** GROUP: a group of the selected nodes is appended, and groups left without members are removed. */
  function GroupNodes(m: Model, sel: seq<string>, suffix: string): (r: Model)
    ensures |sel| < 2 ==> r == m
    ensures |sel| >= 2 ==> r.graph == m.graph && r.edges == m.edges && |r.nodes| > 0
    ensures |sel| >= 2 ==> r.nodes[|r.nodes| - 1] == GroupNode(sel, suffix)
    ensures |sel| >= 2 ==> forall n :: n in r.nodes ==> !EmptyGroup(n)
    ensures |sel| >= 2 ==> forall n :: n in m.nodes && !EmptyGroup(n) ==> n in r.nodes
    ensures |sel| >= 2 ==> IsSubsequence(r.nodes[..|r.nodes| - 1], m.nodes)
  {
    if |sel| < 2 then m
    else m.(nodes := Regrouped(m.nodes, GroupNode(sel, suffix)))
  }

  /** RENAME: the caption the dialog opens with (the selected node's IP, absent
      when its data has none), or `None` when the dialog stays shut. */
  function RenameCaption(m: Model, selectedIds: seq<string>): (r: Option<Option<string>>)
    ensures r.Some? <==> selectedIds != [] && GetNode(m.nodes, selectedIds[0]).Some? && GetNode(m.nodes, selectedIds[0]).value.data.Some?
    ensures r.Some? ==> exists i :: (
      && 0 <= i < |m.nodes| && m.nodes[i].id == selectedIds[0]
      && (forall k :: 0 <= k < i ==> m.nodes[k].id != selectedIds[0])
      && r.value == IpOf(m.nodes[i]))
  {
    if selectedIds == [] then None
    else match GetNode(m.nodes, selectedIds[0])
      case None => None
      case Some(n) => if n.data.None? then None else Some(n.data.value.ipAddress)
  }

  /** The rename dialog opens exactly when the caption it submits can be applied. */
  lemma RenameOpensIffCaptionApplies(m: Model, selectedIds: seq<string>, caption: string, title: string)
    ensures RenameCaption(m, selectedIds).Some? <==> Recaption(m.nodes, selectedIds, caption, title).Some?
  {
  }

  /** `handleAdd` on the model: what each command does to `{graph, nodes, edges}`. */
  function Dispatch(m: Model, selectedIds: seq<string>, item: DrawItemType, groupSuffix: string): (r: Model)
    ensures item in {Rename, SaveDiagram, AddBranch, AddDepartment, AddRouter, AddSwitch, AddFirewall} ==> r == m
    ensures r.nodes != m.nodes ==> item in {AddServer, Delete, Group}
    ensures r.edges != m.edges ==> item in {Connect, ConnectByIsolator, Disconnect, Delete}
  {
    var sel := SelectedItems(m.nodes, selectedIds);
    match item
    case AddServer | AddRouter | AddSwitch | AddFirewall => AddNode(m, item)
    case Connect => ConnectNodes(m, sel, false)
    case ConnectByIsolator => ConnectNodes(m, sel, true)
    case Disconnect => DisconnectNodes(m, sel)
    case Delete => DeleteNodes(m, sel)
    case Group => GroupNodes(m, sel, groupSuffix)
    case Rename | SaveDiagram | AddBranch | AddDepartment => m
  }

  // Each command's case of `Dispatch`, stated on its own.

  lemma DispatchAddServer(m: Model, selectedIds: seq<string>, groupSuffix: string)
    ensures Dispatch(m, selectedIds, AddServer, groupSuffix) == AddNode(m, AddServer)
  {
  }

  lemma DispatchConnect(m: Model, selectedIds: seq<string>, groupSuffix: string)
    ensures Dispatch(m, selectedIds, Connect, groupSuffix) == ConnectNodes(m, SelectedItems(m.nodes, selectedIds), false)
    ensures Dispatch(m, selectedIds, ConnectByIsolator, groupSuffix) == ConnectNodes(m, SelectedItems(m.nodes, selectedIds), true)
  {
  }

  lemma DispatchDisconnect(m: Model, selectedIds: seq<string>, groupSuffix: string)
    ensures Dispatch(m, selectedIds, Disconnect, groupSuffix) == DisconnectNodes(m, SelectedItems(m.nodes, selectedIds))
  {
  }

  lemma DispatchDelete(m: Model, selectedIds: seq<string>, groupSuffix: string)
    ensures Dispatch(m, selectedIds, Delete, groupSuffix) == DeleteNodes(m, SelectedItems(m.nodes, selectedIds))
  {
  }

  lemma DispatchGroup(m: Model, selectedIds: seq<string>, groupSuffix: string)
    ensures Dispatch(m, selectedIds, Group, groupSuffix) == GroupNodes(m, SelectedItems(m.nodes, selectedIds), groupSuffix)
  {
  }

  // ---------------------------------------------------------------------------
  // Saving and loading

  /** The icon name SAVE_DIAGRAM writes, `data?.icon?.displayName`. A string
      tag has no `displayName`, and neither has an icon element or an svg
      picture, so the name is always undefined. */
  function DisplayName(icon: Option<IconRef>): (r: Option<string>)
    ensures r.None?
  {
    match icon
    case None => None
    case Some(Named(_)) => None
    case Some(Component(_)) => None
    case Some(Asset(_)) => None
  }

  /** The name of an icon kind (`IconType`). */
  function KindName(k: IconKind): string
  {
    match k
    case ServerIcon => "ServerIcon"
    case BranchIcon => "BranchIcon"
    case DepartmentIcon => "DepartmentIcon"
  }

  /** The icon name a save should write: the tag itself, or the name of the icon's kind. */
  function IconName(icon: Option<IconRef>): (r: Option<string>)
    ensures r.None? <==> icon.None?
    ensures forall k :: icon == Some(Component(k)) || icon == Some(Asset(k)) ==> IconComponent(Some(Named(r.value))) == k
  {
    match icon
    case None => None
    case Some(Named(name)) => Some(name)
    case Some(Component(k)) => Some(KindName(k))
    case Some(Asset(k)) => Some(KindName(k))
  }

  /** `getIconComponent`: the component for a stored icon name; anything else is drawn as a branch. */
  function IconComponent(icon: Option<IconRef>): (k: IconKind)
    ensures k == ServerIcon <==> icon == Some(Named("ServerIcon"))
    ensures k == DepartmentIcon <==> icon == Some(Named("DepartmentIcon"))
    ensures k == BranchIcon <==> icon != Some(Named("ServerIcon")) && icon != Some(Named("DepartmentIcon"))
  {
    match icon
    case Some(Named(name)) =>
      if name == "ServerIcon" then ServerIcon
      else if name == "BranchIcon" then BranchIcon
      else if name == "DepartmentIcon" then DepartmentIcon
      else BranchIcon
    case _ => BranchIcon
  }

  /** A node as the save payload carries it. */
  datatype SavedData = SavedData(badge: Option<string>, icon: Option<string>, ipAddress: Option<string>)
  datatype SavedNode = SavedNode(
    id: string, displayLabel: string, kind: string, group: Option<bool>,
    children: seq<string>, status: Option<Status>, geometry: Geometry,
    padding: Option<int>, data: SavedData)
  datatype SavedEdge = SavedEdge(id: string, source: string, target: string, kind: string, edgeStyle: Option<EdgeStyle>)
  datatype SavedGraph = SavedGraph(id: string, layout: string, kind: string)
  datatype Diagram = Diagram(organization: string, graph: SavedGraph, nodes: seq<SavedNode>, edges: seq<SavedEdge>)

  /** `data?.badge` */
  function BadgeOf(n: Node): Option<string>
  {
    if n.data.Some? then n.data.value.badge else None
  }

  /** `data?.icon` */
  function IconOf(n: Node): Option<IconRef>
  {
    if n.data.Some? then n.data.value.icon else None
  }

  /** `s` carries node `n` as SAVE_DIAGRAM sends it: every field but the
      health, `isRoot` and the icon, with `data` always present and reduced
      to the badge and the IP (both absent on a node without data). */
  predicate SavesNode(s: SavedNode, n: Node)
  {
    && s.id == n.id && s.displayLabel == n.displayLabel && s.kind == n.kind && s.group == n.group
    && s.children == n.children && s.status == n.status && s.geometry == n.geometry && s.padding == n.padding
    && s.data.badge == BadgeOf(n) && s.data.ipAddress == IpOf(n)
  }

  /** `s` carries edge `e`: id, endpoints, type and style, without the animation. */
  predicate SavesEdge(s: SavedEdge, e: Edge)
  {
    s.id == e.id && s.source == e.source && s.target == e.target && s.kind == e.kind && s.edgeStyle == e.edgeStyle
  }

  /** `d` is the SAVE_DIAGRAM payload of `m`, whatever icon names it writes:
      the organisation, the graph with its layout as its type, and the nodes
      and edges one for one, in order. */
  predicate IsPayload(d: Diagram, organization: string, m: Model)
  {
    && d.organization == organization
    && d.graph == SavedGraph(m.graph.id, m.graph.layout, m.graph.layout)
    && |d.nodes| == |m.nodes| && |d.edges| == |m.edges|
    && (forall i :: 0 <= i < |m.nodes| ==> SavesNode(d.nodes[i], m.nodes[i]))
    && (forall i :: 0 <= i < |m.edges| ==> SavesEdge(d.edges[i], m.edges[i]))
  }

  function SaveNodeWith(n: Node, iconName: Option<string>): (r: SavedNode)
    ensures SavesNode(r, n) && r.data.icon == iconName
  {
    SavedNode(n.id, n.displayLabel, n.kind, n.group, n.children, n.status, n.geometry, n.padding,
      SavedData(BadgeOf(n), iconName, IpOf(n)))
  }

  function SaveEdge(e: Edge): (r: SavedEdge)
    ensures SavesEdge(r, e)
  {
    SavedEdge(e.id, e.source, e.target, e.kind, e.edgeStyle)
  }

  function SaveGraph(g: Graph): SavedGraph
  {
    SavedGraph(g.id, g.layout, g.layout)
  }

  /** SAVE_DIAGRAM as written: the payload of the model, with every node's icon name undefined. */
  function SaveAsWritten(organization: string, m: Model): (d: Diagram)
    ensures IsPayload(d, organization, m)
    ensures forall i :: 0 <= i < |d.nodes| ==> d.nodes[i].data.icon.None?
  {
    Diagram(organization, SaveGraph(m.graph),
      seq(|m.nodes|, i requires 0 <= i < |m.nodes| => SaveNodeWith(m.nodes[i], DisplayName(IconOf(m.nodes[i])))),
      seq(|m.edges|, i requires 0 <= i < |m.edges| => SaveEdge(m.edges[i])))
  }

  /** SAVE_DIAGRAM with the icon written by name: the payload of the model,
      with each node's icon name the one `getIconComponent` maps back. */
  function Save(organization: string, m: Model): (d: Diagram)
    ensures IsPayload(d, organization, m)
    ensures forall i :: 0 <= i < |m.nodes| ==> d.nodes[i].data.icon == IconName(IconOf(m.nodes[i]))
  {
    Diagram(organization, SaveGraph(m.graph),
      seq(|m.nodes|, i requires 0 <= i < |m.nodes| => SaveNodeWith(m.nodes[i], IconName(IconOf(m.nodes[i])))),
      seq(|m.edges|, i requires 0 <= i < |m.edges| => SaveEdge(m.edges[i])))
  }

  /** The two saves send the same payload apart from the icon names. */
  lemma SavesDifferOnlyInIcons(organization: string, m: Model, i: nat)
    requires i < |m.nodes|
    ensures Save(organization, m).nodes[i].(data := SaveAsWritten(organization, m).nodes[i].data)
      == SaveAsWritten(organization, m).nodes[i]
    ensures Save(organization, m).nodes[i].data.(icon := None) == SaveAsWritten(organization, m).nodes[i].data
    ensures Save(organization, m).edges == SaveAsWritten(organization, m).edges
  {
  }

  /** What `READ_DIAGRAM` returns for a stored payload, when the backend keeps
      the fields it was given: every node comes back with a `data` record
      (the payload always has one), the icon as its name, `isRoot` and the
      edge animation as absent. */
  function ReadBack(d: Diagram): (r: DiagramResponse)
    ensures r.Loaded? && |r.nodes| == |d.nodes| && |r.edges| == |d.edges| && AllHaveData(r.nodes)
  {
    Loaded(
      Graph(d.graph.id, d.graph.kind, d.graph.layout),
      seq(|d.nodes|, i requires 0 <= i < |d.nodes| =>
        var n := d.nodes[i];
        var icon := match n.data.icon case None => None case Some(name) => Some(Named(name));
        Node(n.id, n.displayLabel, n.kind, n.group, n.children, n.status, n.geometry, n.padding,
          Some(NodeData(icon, n.data.ipAddress, None, n.data.badge, None)))),
      seq(|d.edges|, i requires 0 <= i < |d.edges| =>
        var e := d.edges[i];
        Edge(e.id, e.source, e.target, e.kind, e.edgeStyle, None)))
  }

  /** A stored node as the editor shows it: labelled with its IP's title (or the
      IP), its icon name resolved to a component. */
  function LoadNode(n: Node, title: string): (r: Node)
    requires n.data.Some?
    ensures r.data.Some?
    ensures r.displayLabel == LabelFor(n.data.value.ipAddress, title)
    ensures r.data.value.icon == Some(Component(IconComponent(n.data.value.icon)))
    ensures r.(displayLabel := n.displayLabel, data := n.data) == n
    ensures r.data.value.(icon := n.data.value.icon) == n.data.value
  {
    var d := n.data.value;
    n.(displayLabel := LabelFor(d.ipAddress, title), data := Some(d.(icon := Some(Component(IconComponent(d.icon))))))
  }

  /** Every stored node prepared for the editor; `title` is the IP-title lookup. */
  function LoadNodes(nodes: seq<Node>, title: Option<string> -> string): (r: seq<Node>)
    requires AllHaveData(nodes)
    ensures |r| == |nodes| && AllHaveData(r)
    ensures forall i :: 0 <= i < |nodes| ==> r[i] == LoadNode(nodes[i], title(nodes[i].data.value.ipAddress))
  {
    var r := seq(|nodes|, i requires 0 <= i < |nodes| && nodes[i].data.Some? => LoadNode(nodes[i], title(nodes[i].data.value.ipAddress)));
    assert forall i :: 0 <= i < |nodes| ==> r[i] == LoadNode(nodes[i], title(nodes[i].data.value.ipAddress));
    r
  }

  /** The load effect: the model it sets, or `None` when it sets none. A query
      error and an empty answer (no data yet, as before the query answers)
      both give the empty model. An answer whose `readDiagram` is null throws
      when it is destructured, and a stored node without `data` makes the
      preparation throw; the model is left alone then. Otherwise the model is
      the stored graph and edges with the prepared nodes, the current server
      logs merged in. */
  function LoadModel(resp: DiagramResponse, title: Option<string> -> string, logs: seq<ServerLog>): (r: Option<Model>)
    ensures resp.QueryError? ==> r == Some(EMPTY_MODEL)
    ensures resp.NoDiagram? ==> r == Some(EMPTY_MODEL)
    ensures resp.NullDiagram? ==> r.None?
    ensures resp.Loaded? ==> (r.Some? <==> AllHaveData(resp.nodes))
    ensures resp.Loaded? && r.Some? ==>
      && r.value.graph == resp.graph && r.value.edges == resp.edges
      && |r.value.nodes| == |resp.nodes|
      && forall i :: 0 <= i < |resp.nodes| ==> LoadedAs(r.value.nodes[i], resp.nodes[i], title)
  {
    match resp
    case QueryError => Some(EMPTY_MODEL)
    case NoDiagram => Some(EMPTY_MODEL)
    case NullDiagram => None
    case Loaded(graph, nodes, edges) =>
      if !AllHaveData(nodes) then None
      else
        var prepared := LoadNodes(nodes, title);
        var merged := MergeLogs(prepared, logs);
        forall i | 0 <= i < |nodes| ensures LoadedAs(merged[i], nodes[i], title) {
          MergeLogsAt(prepared, logs, i);
        }
        Some(Model(graph, merged, edges))
  }

  /** The loaded node `r` shows stored node `n`: same id, type, children and
      geometry, labelled by its IP's title (or the IP), the same IP, and the
      stored icon name resolved to a component. */
  predicate LoadedAs(r: Node, n: Node, title: Option<string> -> string)
  {
    && r.id == n.id && r.kind == n.kind && r.group == n.group && r.children == n.children
    && r.geometry == n.geometry && r.padding == n.padding
    && r.displayLabel == LabelFor(IpOf(n), title(IpOf(n)))
    && r.data.Some? && IpOf(r) == IpOf(n) && r.data.value.badge == BadgeOf(n)
    && r.data.value.icon == Some(Component(IconComponent(IconOf(n))))
  }

  /** Once a diagram is loaded with the current logs, the log effect that follows changes nothing. */
  lemma LoadThenMergeIsStable(resp: DiagramResponse, title: Option<string> -> string, logs: seq<ServerLog>)
    ensures var m := LoadModel(resp, title, logs); m.Some? ==> MergeLogs(m.value.nodes, logs) == m.value.nodes
  {
    if resp.Loaded? && AllHaveData(resp.nodes) {
      MergeIdempotent(LoadNodes(resp.nodes, title), logs);
    } else if resp.QueryError? || resp.NoDiagram? {
      assert LoadModel(resp, title, logs).value.nodes == [];
    }
  }

  /** Every diagram survives a save and a reload: each node keeps every field
      it was saved with, takes its label from its IP, and an icon picked as a
      component or picture comes back as that component. A node saved without
      data (a group) comes back with a data record holding no IP. `isRoot` is
      not saved, so it comes back absent, and the graph's type comes back as
      its layout; edges come back whole but for their animation. */
  lemma SaveLoadRoundTrip(organization: string, m: Model, title: Option<string> -> string, i: nat)
    requires i < |m.nodes|
    ensures LoadModel(ReadBack(Save(organization, m)), title, []).Some?
    ensures var back := LoadModel(ReadBack(Save(organization, m)), title, []).value;
      && |back.nodes| == |m.nodes|
      && back.graph == Graph(m.graph.id, m.graph.layout, m.graph.layout)
      && back.nodes[i].(displayLabel := m.nodes[i].displayLabel, data := m.nodes[i].data) == m.nodes[i]
      && back.nodes[i].displayLabel == LabelFor(IpOf(m.nodes[i]), title(IpOf(m.nodes[i])))
      && back.nodes[i].data.Some?
      && IpOf(back.nodes[i]) == IpOf(m.nodes[i])
      && back.nodes[i].data.value.badge == BadgeOf(m.nodes[i])
      && back.nodes[i].data.value.isRoot.None?
      && (forall k :: IconOf(m.nodes[i]) in {Some(Component(k)), Some(Asset(k))} ==> back.nodes[i].data.value.icon == Some(Component(k)))
      && |back.edges| == |m.edges|
      && forall j :: 0 <= j < |m.edges| ==>
           back.edges[j].(animationSpeed := m.edges[j].animationSpeed) == m.edges[j]
  {
    var d := Save(organization, m);
    var resp := ReadBack(d);
    var loaded := LoadNodes(resp.nodes, title);
    assert LoadModel(resp, title, []).value.nodes == loaded;
  }

  /** The source's save loses the icons: a server node saved and reloaded is drawn as a branch. */
  lemma SaveAsWrittenLosesServerIcon(organization: string, title: Option<string> -> string)
    ensures var n := Node("node-0", "Server-0", NODE_TYPE, None, [], None, Geometry(None, None, None, None, None), None,
                          Some(NodeData(Some(Asset(ServerIcon)), Some("Server-0"), None, None, None)));
      var back := LoadModel(ReadBack(SaveAsWritten(organization, Model(DEFAULT_GRAPH, [n], []))), title, []);
      back.Some? && |back.value.nodes| == 1 && back.value.nodes[0].data.value.icon == Some(Component(BranchIcon))
  {
    var n := Node("node-0", "Server-0", NODE_TYPE, None, [], None, Geometry(None, None, None, None, None), None,
                  Some(NodeData(Some(Asset(ServerIcon)), Some("Server-0"), None, None, None)));
    var d := SaveAsWritten(organization, Model(DEFAULT_GRAPH, [n], []));
    var resp := ReadBack(d);
    assert resp.nodes[0].data.value.icon.None?;
    assert LoadModel(resp, title, []).value.nodes == LoadNodes(resp.nodes, title);
  }

  // ---------------------------------------------------------------------------
  // The editor component

  /** The state the structure editor keeps: the model, the selection, and the
      rename dialog with its caption (`None` when it was set from a node without an IP). */
  class StructureDiagram {
    const organization: string
    var model: Model
    var selectedIds: seq<string>
    var dialogOpen: bool
    var caption: Option<string>

    constructor (organization: string)
      ensures this.organization == organization
      ensures model == EMPTY_MODEL && selectedIds == [] && !dialogOpen && caption == Some("")
    {
      this.organization := organization;
      model := EMPTY_MODEL;
      selectedIds := [];
      dialogOpen := false;
      caption := Some("");
    }

    /** The selection event of the canvas. */
    method Select(ids: seq<string>)
      modifies this
      ensures selectedIds == ids
      ensures model == old(model) && dialogOpen == old(dialogOpen) && caption == old(caption)
    {
      selectedIds := ids;
    }

    /** `handleAdd`: runs a toolbar command; SAVE_DIAGRAM returns the payload it sends. */
    method HandleAdd(item: DrawItemType, groupSuffix: string) returns (saved: Option<Diagram>)
      modifies this
      ensures model == Dispatch(old(model), old(selectedIds), item, groupSuffix)
      ensures selectedIds == old(selectedIds)
      ensures saved == if item == SaveDiagram then Some(SaveAsWritten(organization, old(model))) else None
      ensures item == Rename && RenameCaption(old(model), old(selectedIds)).Some? ==>
        dialogOpen && caption == RenameCaption(old(model), old(selectedIds)).value
      ensures !(item == Rename && RenameCaption(old(model), old(selectedIds)).Some?) ==>
        dialogOpen == old(dialogOpen) && caption == old(caption)
    {
      saved := None;
      var selectedItems := SelectedItems(model.nodes, selectedIds);
      match item {
        case AddServer =>
          var nodeId := GetNewId(model.nodes);
          var iconData := GetIcon(item);
          AddNodeWith(model, item, iconData.value);
          DispatchAddServer(model, selectedIds, groupSuffix);
          model := model.(nodes := model.nodes + [NewNode(nodeId, iconData.value)]);
        case AddRouter | AddSwitch | AddFirewall =>
          // `getIcon` has no picture for these, so the command returns before adding a node
        case Rename =>
          if selectedIds == [] {
            return;
          }
          var selectedNode := GetNode(model.nodes, selectedIds[0]);
          if selectedNode.None? || selectedNode.value.data.None? {
            return;
          }
          dialogOpen := true;
          caption := selectedNode.value.data.value.ipAddress;
        case Connect =>
          DispatchConnect(model, selectedIds, groupSuffix);
          model := ConnectNodes(model, selectedItems, false);
        case ConnectByIsolator =>
          DispatchConnect(model, selectedIds, groupSuffix);
          model := ConnectNodes(model, selectedItems, true);
        case Disconnect =>
          DispatchDisconnect(model, selectedIds, groupSuffix);
          model := DisconnectNodes(model, selectedItems);
        case Delete =>
          DispatchDelete(model, selectedIds, groupSuffix);
          model := DeleteNodes(model, selectedItems);
        case Group =>
          DispatchGroup(model, selectedIds, groupSuffix);
          model := GroupNodes(model, selectedItems, groupSuffix);
        case SaveDiagram =>
          saved := Some(SaveAsWritten(organization, model));
        case AddBranch | AddDepartment =>
      }
    }

    /** `updateCaption`: `title` is what the IP-title lookup returned for `newCaption`. */
    method UpdateCaption(newCaption: string, title: string)
      modifies this
      ensures Recaption(old(model).nodes, old(selectedIds), newCaption, title).None? ==>
        model == old(model) && caption == old(caption)
      ensures Recaption(old(model).nodes, old(selectedIds), newCaption, title).Some? ==>
        model == old(model).(nodes := Recaption(old(model).nodes, old(selectedIds), newCaption, title).value)
        && caption == Some(newCaption)
      ensures selectedIds == old(selectedIds) && dialogOpen == old(dialogOpen)
    {
      var updated := Recaption(model.nodes, selectedIds, newCaption, title);
      if updated.Some? {
        model := model.(nodes := updated.value);
        caption := Some(newCaption);
      }
    }

    /** The effect that runs when the server logs change. */
    method OnServerLogs(logs: seq<ServerLog>)
      modifies this
      ensures model == old(model).(nodes := MergeLogs(old(model).nodes, logs))
      ensures selectedIds == old(selectedIds) && dialogOpen == old(dialogOpen) && caption == old(caption)
    {
      var updated := ApplyServerLogs(model.nodes, logs);
      model := model.(nodes := updated);
    }

    /** The effect that runs when the diagram query answers. */
    method Load(resp: DiagramResponse, title: Option<string> -> string, logs: seq<ServerLog>)
      modifies this
      ensures LoadModel(resp, title, logs).Some? ==> model == LoadModel(resp, title, logs).value
      ensures LoadModel(resp, title, logs).None? ==> model == old(model)
      ensures selectedIds == old(selectedIds) && dialogOpen == old(dialogOpen) && caption == old(caption)
    {
      match resp {
        case Loaded(graph, nodes, edges) =>
          var newNodes := [];
          for i := 0 to |nodes|
            invariant AllHaveData(nodes[..i])
            invariant newNodes == LoadNodes(nodes[..i], title)
          {
            if nodes[i].data.None? {
              // `item.data.ipAddress` throws, and the model is never set
              return;
            }
            assert AllHaveData(nodes[..i + 1]);
            newNodes := newNodes + [LoadNode(nodes[i], title(nodes[i].data.value.ipAddress))];
          }
          assert nodes[..|nodes|] == nodes;
          var updatedNodes := ApplyServerLogs(newNodes, logs);
          model := Model(graph, updatedNodes, edges);
        case QueryError =>
          model := EMPTY_MODEL;
        case NoDiagram =>
          model := EMPTY_MODEL;
        case NullDiagram =>
          // destructuring `diagram.readDiagram` throws, and the model is never set
      }
    }
  }
}
