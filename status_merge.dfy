/** The live status merge: every server log is folded into the first node
    whose `data.ipAddress` equals the log's IP, copying the log's health
    fields and setting the node's status to warning exactly when the log is
    an unconfirmed alarm. The structure editor and the monitor view run the
    same merge, once after loading a diagram and again whenever the server
    logs change. */
module StatusMerge {
  import opened Common
  import opened Topology

  /** `isAlarm && confirmed === false ? NodeStatus.warning : NodeStatus.default` */
  function StatusFor(log: ServerLog): (s: Status)
    ensures s == Warning <==> log.isAlarm && !log.confirmed
    ensures s == Default <==> !(log.isAlarm && !log.confirmed)
  {
    if log.isAlarm && !log.confirmed then Warning else Default
  }

  /** The node after `log` has been written into it. */
  function Stamp(n: Node, log: ServerLog): (r: Node)
    requires n.data.Some?
    ensures r.data.Some? && r.data.value.health == Some(log.health)
    ensures r.status == Some(StatusFor(log))
    // every other field, the id and the IP included, is left as it was
    ensures r.(status := n.status, data := Some(r.data.value.(health := n.data.value.health))) == n
  {
    n.(status := Some(StatusFor(log)), data := Some(n.data.value.(health := Some(log.health))))
  }

  /** Writing two logs into a node leaves only the second one's traces. */
  lemma StampTwice(n: Node, a: ServerLog, b: ServerLog)
    requires n.data.Some?
    ensures Stamp(Stamp(n, a), b) == Stamp(n, b)
  {
  }

  /** The two nodes agree on what the merge looks at: their id, whether they have data, and their IP. */
  predicate SameKeys(a: Node, b: Node)
  {
    && a.id == b.id
    && a.data.Some? == b.data.Some?
    && (a.data.Some? ==> a.data.value.ipAddress == b.data.value.ipAddress)
  }

  predicate SameKeysAll(a: seq<Node>, b: seq<Node>)
  {
    |a| == |b| && forall i :: 0 <= i < |a| ==> SameKeys(a[i], b[i])
  }

  /** `nodes.findIndex(item => item.data?.ipAddress === ip)` */
  function FirstWithIp(nodes: seq<Node>, ip: string): (r: Option<nat>)
    ensures r.Some? ==> r.value < |nodes| && HasIp(nodes[r.value], ip)
    ensures r.Some? ==> forall k :: 0 <= k < r.value ==> !HasIp(nodes[k], ip)
    ensures r.None? <==> forall k :: 0 <= k < |nodes| ==> !HasIp(nodes[k], ip)
  {
    if nodes == [] then None
    else if HasIp(nodes[0], ip) then Some(0)
    else match FirstWithIp(nodes[1..], ip)
      case None => None
      case Some(i) => Some(i + 1)
  }

  /** Nodes that agree on their keys have the same first IP match. */
  lemma FirstWithIpSameKeys(a: seq<Node>, b: seq<Node>, ip: string)
    requires SameKeysAll(a, b)
    ensures FirstWithIp(a, ip) == FirstWithIp(b, ip)
  {
    assert forall k :: 0 <= k < |a| ==> (HasIp(a[k], ip) <==> HasIp(b[k], ip));
  }

  /** One log folded into the node list: only the first node with the log's IP changes. */
  function MergeOne(nodes: seq<Node>, log: ServerLog): (r: seq<Node>)
    ensures SameKeysAll(r, nodes)
    ensures forall k :: 0 <= k < |nodes| && FirstWithIp(nodes, log.ip) != Some(k) ==> r[k] == nodes[k]
  {
    match FirstWithIp(nodes, log.ip)
    case None => nodes
    case Some(i) => nodes[i := Stamp(nodes[i], log)]
  }

  /** All logs folded in, in order (`serverLogs.forEach`). */
  function MergeLogs(nodes: seq<Node>, logs: seq<ServerLog>): (r: seq<Node>)
    ensures SameKeysAll(r, nodes)
  {
    if logs == [] then nodes
    else MergeOne(MergeLogs(nodes, logs[..|logs| - 1]), logs[|logs| - 1])
  }

  /** The last log whose first IP match in `nodes` is node `k`: the one whose traces node `k` ends with. */
  function LastMatch(nodes: seq<Node>, logs: seq<ServerLog>, k: nat): (r: Option<ServerLog>)
    ensures r.Some? ==> r.value in logs && FirstWithIp(nodes, r.value.ip) == Some(k)
    ensures r.None? <==> forall j :: 0 <= j < |logs| ==> FirstWithIp(nodes, logs[j].ip) != Some(k)
  {
    if logs == [] then None
    else if FirstWithIp(nodes, logs[|logs| - 1].ip) == Some(k) then Some(logs[|logs| - 1])
    else
      var r := LastMatch(nodes, logs[..|logs| - 1], k);
      assert forall j :: 0 <= j < |logs| - 1 ==> logs[..|logs| - 1][j] == logs[j];
      r
  }

  /** What the merge does to each node: a node no log matches first is unchanged;
      any other node carries the traces of the last log that matches it first. */
  lemma {:induction false} MergeLogsAt(nodes: seq<Node>, logs: seq<ServerLog>, k: nat)
    requires k < |nodes|
    ensures nodes[k].data.Some? || LastMatch(nodes, logs, k).None?
    ensures MergeLogs(nodes, logs)[k] ==
      match LastMatch(nodes, logs, k)
      case None => nodes[k]
      case Some(log) => Stamp(nodes[k], log)
  {
    if logs != [] {
      var init, last := logs[..|logs| - 1], logs[|logs| - 1];
      MergeLogsAt(nodes, init, k);
      var before := MergeLogs(nodes, init);
      FirstWithIpSameKeys(before, nodes, last.ip);
      if FirstWithIp(nodes, last.ip) == Some(k) {
        if LastMatch(nodes, init, k).Some? {
          StampTwice(nodes[k], LastMatch(nodes, init, k).value, last);
        }
      }
    }
  }

  /** Merging the same logs a second time changes nothing. */
  lemma MergeIdempotent(nodes: seq<Node>, logs: seq<ServerLog>)
    ensures MergeLogs(MergeLogs(nodes, logs), logs) == MergeLogs(nodes, logs)
  {
    var once := MergeLogs(nodes, logs);
    var twice := MergeLogs(once, logs);
    forall k | 0 <= k < |nodes| ensures twice[k] == once[k] {
      MergeLogsAt(nodes, logs, k);
      MergeLogsAt(once, logs, k);
      LastMatchSameKeys(once, nodes, logs, k);
      if LastMatch(nodes, logs, k).Some? {
        StampTwice(nodes[k], LastMatch(nodes, logs, k).value, LastMatch(nodes, logs, k).value);
      }
    }
  }

  lemma {:induction false} LastMatchSameKeys(a: seq<Node>, b: seq<Node>, logs: seq<ServerLog>, k: nat)
    requires SameKeysAll(a, b)
    ensures LastMatch(a, logs, k) == LastMatch(b, logs, k)
  {
    if logs != [] {
      FirstWithIpSameKeys(a, b, logs[|logs| - 1].ip);
      LastMatchSameKeys(a, b, logs[..|logs| - 1], k);
    }
  }

  /** The merge as the effects run it: a copy of the node list, and for each log
      the index found in the original list and that slot overwritten. */
  method ApplyServerLogs(nodes: seq<Node>, logs: seq<ServerLog>) returns (updated: seq<Node>)
    ensures updated == MergeLogs(nodes, logs)
  {
    updated := nodes;
    var i := 0;
    while i < |logs|
      invariant 0 <= i <= |logs|
      invariant updated == MergeLogs(nodes, logs[..i])
    {
      assert logs[..i + 1][..i] == logs[..i];
      FirstWithIpSameKeys(updated, nodes, logs[i].ip);
      var index := FirstWithIp(nodes, logs[i].ip);
      if index.Some? {
        updated := updated[index.value := Stamp(updated[index.value], logs[i])];
      }
      i := i + 1;
    }
    assert logs[..i] == logs;
  }
}
