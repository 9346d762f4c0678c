/** The monitor view: the read-only diagram of an organisation with live
    status. It loads the stored diagram (label from the IP title, `isRoot`
    defaulted to false, the icon kept as its stored name), merges the server
    logs, lets the operator edit a node's address, maps a node's status to
    the colour it is drawn with, and drills down into a sub-organisation on
    double click. */
module MonitorView {
  import opened Common
  import opened Topology
  import opened StatusMerge

  /** A stored node as the monitor shows it: labelled with its IP's title (or
      the IP), `isRoot` made a definite boolean (`isRoot || false`). */
  function MonitorNode(n: Node, title: string): (r: Node)
    requires n.data.Some?
    ensures r.data.Some? && r.data.value.isRoot.Some?
    ensures r.data.value.isRoot == Some(true) <==> n.data.value.isRoot == Some(true)
    ensures r.displayLabel == LabelFor(n.data.value.ipAddress, title)
    // the label and `isRoot` change, nothing else
    ensures r.(displayLabel := n.displayLabel, data := n.data) == n
    ensures r.data.value.(isRoot := n.data.value.isRoot) == n.data.value
  {
    var d := n.data.value;
    n.(displayLabel := LabelFor(d.ipAddress, title), data := Some(d.(isRoot := Some(d.isRoot == Some(true)))))
  }

  /** Every stored node prepared for the monitor; `title` is the IP-title lookup. */
  function MonitorNodes(nodes: seq<Node>, title: Option<string> -> string): (r: seq<Node>)
    requires AllHaveData(nodes)
    ensures |r| == |nodes| && AllHaveData(r)
    ensures forall i :: 0 <= i < |nodes| ==> r[i] == MonitorNode(nodes[i], title(nodes[i].data.value.ipAddress))
  {
    if nodes == [] then []
    else [MonitorNode(nodes[0], title(nodes[0].data.value.ipAddress))] + MonitorNodes(nodes[1..], title)
  }

  /** Preparing the nodes keeps what the merge looks at: ids, data and IPs. */
  lemma MonitorNodesSameKeys(nodes: seq<Node>, title: Option<string> -> string)
    requires AllHaveData(nodes)
    ensures SameKeysAll(MonitorNodes(nodes, title), nodes)
  {
  }

  /** The load effect: the model it sets, or `None` when it sets none. A query
      error and an empty answer (no data yet, as before the query answers)
      both give the empty model. An answer whose `readDiagram` is null throws
      when it is destructured, and a stored node without `data` makes the
      preparation throw; the model is left alone then. Otherwise the model is
      the stored graph and edges with the prepared nodes, the current server
      logs merged in. */
  function LoadModel(resp: DiagramResponse, title: Option<string> -> string, logs: seq<ServerLog>): (r: Option<Model>)
    ensures resp.QueryError? ==> r == Some(EMPTY_MODEL)
    ensures resp.NoDiagram? ==> r == Some(EMPTY_MODEL)
    ensures resp.NullDiagram? ==> r.None?
    ensures resp.Loaded? ==> (r.Some? <==> AllHaveData(resp.nodes))
    ensures resp.Loaded? && r.Some? ==>
      && r.value.graph == resp.graph && r.value.edges == resp.edges
      && SameKeysAll(r.value.nodes, resp.nodes)
      && forall i :: 0 <= i < |resp.nodes| ==> ShownAs(r.value.nodes[i], resp.nodes[i], title)
  {
    match resp
    case QueryError => Some(EMPTY_MODEL)
    case NoDiagram => Some(EMPTY_MODEL)
    case NullDiagram => None
    case Loaded(graph, nodes, edges) =>
      if !AllHaveData(nodes) then None
      else
        var prepared := MonitorNodes(nodes, title);
        var merged := MergeLogs(prepared, logs);
        forall i | 0 <= i < |nodes| ensures ShownAs(merged[i], nodes[i], title) {
          MergeLogsAt(prepared, logs, i);
        }
        Some(Model(graph, merged, edges))
  }

  /** The loaded node `r` shows stored node `n`: same id, type, children and
      geometry, labelled by its IP's title (or the IP), the same IP and icon
      name, and `isRoot` true exactly when it was stored as true. */
  predicate ShownAs(r: Node, n: Node, title: Option<string> -> string)
    requires n.data.Some?
  {
    && r.id == n.id && r.kind == n.kind && r.group == n.group && r.children == n.children
    && r.geometry == n.geometry && r.padding == n.padding
    && r.displayLabel == LabelFor(n.data.value.ipAddress, title(n.data.value.ipAddress))
    && r.data.Some? && r.data.value.ipAddress == n.data.value.ipAddress && r.data.value.icon == n.data.value.icon
    && r.data.value.isRoot == Some(n.data.value.isRoot == Some(true))
  }

  /** A node's status as the topology library reports it (`getNodeStatus().toString()`). */
  function StatusText(s: Status): string
  {
    match s
    case Default => "default"
    case Info => "info"
    case Success => "success"
    case Warning => "warning"
    case Danger => "danger"
    case Other(text) => text
  }

  /** The status a node is drawn with: "Critical" as danger, "Danger" as warning, anything else as default. */
  function DisplayStatus(statusText: string): (r: Status)
    ensures r == Danger <==> statusText == "Critical"
    ensures r == Warning <==> statusText == "Danger"
    ensures r == Default <==> statusText != "Critical" && statusText != "Danger"
  {
    if statusText == "Critical" then Danger
    else if statusText == "Danger" then Warning
    else Default
  }

  /** The library's own status names never match the capitalised ones the
      mapping tests for, so a merged warning is drawn with the default colour. */
  lemma LibraryStatusesDrawDefault(s: Status)
    requires !s.Other?
    ensures DisplayStatus(StatusText(s)) == Default
  {
  }

  /** Only a stored "Critical" or "Danger" status is drawn in colour, and
      nothing the merge writes is either. */
  lemma OnlyStoredStatusesDrawColour(s: Status, log: ServerLog)
    ensures DisplayStatus(StatusText(s)) != Default <==> s == Other("Critical") || s == Other("Danger")
    ensures DisplayStatus(StatusText(StatusFor(log))) == Default
  {
  }

  /** `handleDoubleClick`: the page a double click opens, or `None` for a root,
      a server or a department node. */
  function DrillDownTarget(d: NodeData, id: string): (r: Option<string>)
    ensures r.None? <==> d.isRoot == Some(true) || d.icon == Some(Named("ServerIcon")) || d.icon == Some(Named("DepartmentIcon"))
    ensures r.Some? ==> r.value == "/monitor?org=" + id
  {
    if d.isRoot == Some(true) || d.icon == Some(Named("ServerIcon")) || d.icon == Some(Named("DepartmentIcon")) then None
    else Some("/monitor?org=" + id)
  }

  /** Every loaded node that is neither a root nor a server or department can be drilled into. */
  lemma LoadedBranchDrillsDown(resp: DiagramResponse, title: Option<string> -> string, logs: seq<ServerLog>, i: nat)
    requires resp.Loaded? && AllHaveData(resp.nodes)
    requires i < |resp.nodes|
    requires var d := resp.nodes[i].data.value;
      d.isRoot != Some(true) && d.icon != Some(Named("ServerIcon")) && d.icon != Some(Named("DepartmentIcon"))
    ensures LoadModel(resp, title, logs).Some?
    ensures var n := LoadModel(resp, title, logs).value.nodes[i];
      DrillDownTarget(n.data.value, n.id) == Some("/monitor?org=" + resp.nodes[i].id)
  {
  }

  /** The state the monitor view keeps: the model, the selection, and the address dialog. */
  class MonitorDiagram {
    var model: Model
    var selectedIds: seq<string>
    var caption: string

    constructor ()
      ensures model == EMPTY_MODEL && selectedIds == [] && caption == ""
    {
      model := EMPTY_MODEL;
      selectedIds := [];
      caption := "";
    }

    /** The selection event of the canvas. */
    method Select(ids: seq<string>)
      modifies this
      ensures selectedIds == ids && model == old(model) && caption == old(caption)
    {
      selectedIds := ids;
    }

    /** `updateCaption`: `title` is what the IP-title lookup returned for `newCaption`. */
    method UpdateCaption(newCaption: string, title: string)
      modifies this
      ensures Recaption(old(model).nodes, old(selectedIds), newCaption, title).None? ==>
        model == old(model) && caption == old(caption)
      ensures Recaption(old(model).nodes, old(selectedIds), newCaption, title).Some? ==>
        model == old(model).(nodes := Recaption(old(model).nodes, old(selectedIds), newCaption, title).value)
        && caption == newCaption
      ensures selectedIds == old(selectedIds)
    {
      var updated := Recaption(model.nodes, selectedIds, newCaption, title);
      if updated.Some? {
        model := model.(nodes := updated.value);
        caption := newCaption;
      }
    }

    /** The effect that runs when the server logs change. */
    method OnServerLogs(logs: seq<ServerLog>)
      modifies this
      ensures model == old(model).(nodes := MergeLogs(old(model).nodes, logs))
      ensures selectedIds == old(selectedIds) && caption == old(caption)
    {
      var updated := ApplyServerLogs(model.nodes, logs);
      model := model.(nodes := updated);
    }

    /** The effect that runs when the diagram query answers. */
    method Load(resp: DiagramResponse, title: Option<string> -> string, logs: seq<ServerLog>)
      modifies this
      ensures LoadModel(resp, title, logs).Some? ==> model == LoadModel(resp, title, logs).value
      ensures LoadModel(resp, title, logs).None? ==> model == old(model)
      ensures selectedIds == old(selectedIds) && caption == old(caption)
    {
      match resp {
        case Loaded(graph, nodes, edges) =>
          var newNodes := [];
          for i := 0 to |nodes|
            invariant AllHaveData(nodes[..i])
            invariant |newNodes| == i
            invariant forall k :: 0 <= k < i ==> newNodes[k] == MonitorNode(nodes[k], title(nodes[k].data.value.ipAddress))
          {
            if nodes[i].data.None? {
              // `item.data.ipAddress` throws, and the model is never set
              return;
            }
            newNodes := newNodes + [MonitorNode(nodes[i], title(nodes[i].data.value.ipAddress))];
          }
          assert nodes[..|nodes|] == nodes;
          assert newNodes == MonitorNodes(nodes, title);
          var updatedNodes := ApplyServerLogs(newNodes, logs);
          model := Model(graph, updatedNodes, edges);
        case QueryError =>
          model := EMPTY_MODEL;
        case NoDiagram =>
          model := EMPTY_MODEL;
        case NullDiagram =>
          // destructuring `diagram.readDiagram` throws, and the model is never set
      }
    }
  }
}
