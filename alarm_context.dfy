/** The alarm part of the application context: the server-log list, the
    acknowledgement of one server's alarm, and the "some site is alarming"
    check over the logs and the context's own site list. */
module AlarmContext {
  import opened Common
  import opened Topology
  import opened StatusMerge

  /** A site of the context's `nodes` list (`NodeType`); the alarm check only looks at its IP. */
  datatype SiteNode = SiteNode(id: string, ipAddress: string, isAlarm: bool, confirmed: bool)

  /** The log list after `confirmAlarm(ip)`: the first log with that IP is marked confirmed. */
  function ConfirmedLogs(logs: seq<ServerLog>, ip: string): (r: seq<ServerLog>)
    ensures |r| == |logs|
    ensures (forall k :: 0 <= k < |logs| ==> logs[k].ip != ip) ==> r == logs
    ensures forall k :: 0 <= k < |logs| ==>
      || r[k] == logs[k]
      || (logs[k].ip == ip && (forall j :: 0 <= j < k ==> logs[j].ip != ip) && r[k] == logs[k].(confirmed := true))
    ensures forall k :: 0 <= k < |logs| && logs[k].ip == ip && (forall j :: 0 <= j < k ==> logs[j].ip != ip) ==> r[k].confirmed
    ensures forall k :: 0 <= k < |logs| ==> r[k].ip == logs[k].ip && (logs[k].confirmed ==> r[k].confirmed)
  {
    match FirstIndex(logs, (log: ServerLog) => log.ip == ip)
    case None => logs
    case Some(i) => logs[i := logs[i].(confirmed := true)]
  }

  /** Confirming twice is confirming once. */
  lemma ConfirmIdempotent(logs: seq<ServerLog>, ip: string)
    ensures ConfirmedLogs(ConfirmedLogs(logs, ip), ip) == ConfirmedLogs(logs, ip)
  {
    var once := ConfirmedLogs(logs, ip);
    var twice := ConfirmedLogs(once, ip);
    forall k | 0 <= k < |logs| ensures twice[k] == once[k] {
      if once[k].ip == ip && forall j :: 0 <= j < k ==> once[j].ip != ip {
        assert once[k].confirmed;
      }
    }
  }

  /** The log raises a site alarm: some site has its IP and it is an unconfirmed alarm. */
  predicate RaisesAlarm(log: ServerLog, nodes: seq<SiteNode>)
  {
    match FirstIndex(nodes, (n: SiteNode) => n.ipAddress == log.ip)
    case None => false
    case Some(_) => log.isAlarm && !log.confirmed
  }

  /** `checkSitesAlarm` over the given logs and sites. */
  function SitesAlarm(logs: seq<ServerLog>, nodes: seq<SiteNode>): (r: bool)
    ensures r <==> exists i, j :: (
      && 0 <= i < |logs| && 0 <= j < |nodes|
      && nodes[j].ipAddress == logs[i].ip && logs[i].isAlarm && !logs[i].confirmed)
  {
    if logs == [] then false
    else
      assert forall i :: 1 <= i < |logs| ==> logs[i] == logs[1..][i - 1];
      RaisesAlarm(logs[0], nodes) || SitesAlarm(logs[1..], nodes)
  }

  /** The default context's `checkSitesAlarm`, used outside the provider. */
  function DefaultCheckSitesAlarm(): bool
  {
    true
  }

  /** The provider's site list is empty, so its check never fires, unlike the default context's. */
  lemma ProviderNeverAlarms(logs: seq<ServerLog>)
    ensures !SitesAlarm(logs, [])
    ensures SitesAlarm(logs, []) != DefaultCheckSitesAlarm()
  {
  }

  /** With one log per IP, confirming an IP silences that log: the alarm check then
      fires exactly when some other log raises an alarm. */
  lemma {:induction false} ConfirmSilences(logs: seq<ServerLog>, nodes: seq<SiteNode>, k: nat)
    requires k < |logs|
    requires forall j :: 0 <= j < |logs| && logs[j].ip == logs[k].ip ==> j == k
    ensures !RaisesAlarm(ConfirmedLogs(logs, logs[k].ip)[k], nodes)
    ensures SitesAlarm(ConfirmedLogs(logs, logs[k].ip), nodes) <==>
      exists j :: 0 <= j < |logs| && j != k && RaisesAlarm(logs[j], nodes)
  {
    var ip := logs[k].ip;
    var r := ConfirmedLogs(logs, ip);
    assert r[k] == logs[k].(confirmed := true);
    forall j | 0 <= j < |logs| && j != k ensures r[j] == logs[j] {
    }
    SitesAlarmAt(r, nodes);
    SitesAlarmAt(logs, nodes);
  }

  /** `SitesAlarm` is `RaisesAlarm` of some log. */
  lemma SitesAlarmAt(logs: seq<ServerLog>, nodes: seq<SiteNode>)
    ensures SitesAlarm(logs, nodes) <==> exists i :: 0 <= i < |logs| && RaisesAlarm(logs[i], nodes)
  {
    if SitesAlarm(logs, nodes) {
      var i, j :| && 0 <= i < |logs| && 0 <= j < |nodes|
        && nodes[j].ipAddress == logs[i].ip && logs[i].isAlarm && !logs[i].confirmed;
      assert RaisesAlarm(logs[i], nodes);
    }
  }

  /** Acknowledging an alarm turns its node back to the default status at the
      next merge, when that log is the only one for its IP; a new unconfirmed
      alarm for the IP turns it to warning again. */
  lemma ConfirmedNodeTurnsDefault(nodes: seq<Node>, logs: seq<ServerLog>, k: nat, alarm: ServerLog)
    requires k < |logs|
    requires forall j :: 0 <= j < |logs| && logs[j].ip == logs[k].ip ==> j == k
    requires FirstWithIp(nodes, logs[k].ip).Some?
    requires alarm.ip == logs[k].ip && alarm.isAlarm && !alarm.confirmed
    ensures var n := FirstWithIp(nodes, logs[k].ip).value;
      var confirmed := ConfirmedLogs(logs, logs[k].ip);
      && MergeLogs(nodes, confirmed)[n].status == Some(Default)
      && MergeLogs(nodes, confirmed + [alarm])[n].status == Some(Warning)
  {
    var ip := logs[k].ip;
    var n := FirstWithIp(nodes, ip).value;
    var confirmed := ConfirmedLogs(logs, ip);
    assert confirmed[k] == logs[k].(confirmed := true);
    MergeLogsAt(nodes, confirmed, n);
    // a log whose first match is node n carries node n's IP, so it is the confirmed one
    forall j | 0 <= j < |confirmed| && FirstWithIp(nodes, confirmed[j].ip) == Some(n) ensures j == k {
      assert HasIp(nodes[n], confirmed[j].ip) && HasIp(nodes[n], ip);
    }
    LastMatchIsConfirmed(nodes, confirmed, n, k);
    var more := confirmed + [alarm];
    assert more[..|more| - 1] == confirmed;
    MergeLogsAt(nodes, more, n);
  }

  /** Without one log per IP the acknowledgement does not reach the node: with
      two alarms for its IP, `confirmAlarm` confirms the first log while the
      merge writes the last one into the node, which stays a warning. */
  lemma DuplicateLogKeepsWarning(n: Node, a: ServerLog, b: ServerLog)
    requires HasIp(n, a.ip) && b.ip == a.ip
    requires a.isAlarm && !a.confirmed && b.isAlarm && !b.confirmed
    ensures var confirmed := ConfirmedLogs([a, b], a.ip);
      && confirmed[0].confirmed && !confirmed[1].confirmed
      && MergeLogs([n], confirmed)[0].status == Some(Warning)
  {
    var confirmed := ConfirmedLogs([a, b], a.ip);
    assert confirmed[0] == a.(confirmed := true);
    assert confirmed[1] == b;
    assert confirmed[..1] == [confirmed[0]];
    assert confirmed[..1][..0] == [];
    assert FirstWithIp([n], b.ip) == Some(0);
  }

  lemma {:induction false} LastMatchIsConfirmed(nodes: seq<Node>, logs: seq<ServerLog>, n: nat, k: nat)
    requires k < |logs| && FirstWithIp(nodes, logs[k].ip) == Some(n)
    requires forall j :: 0 <= j < |logs| && FirstWithIp(nodes, logs[j].ip) == Some(n) ==> j == k
    ensures LastMatch(nodes, logs, n) == Some(logs[k])
  {
    var last := |logs| - 1;
    if k != last {
      var init := logs[..last];
      forall j | 0 <= j < |init| && FirstWithIp(nodes, init[j].ip) == Some(n) ensures j == k {
        assert init[j] == logs[j];
      }
      assert init[k] == logs[k];
      LastMatchIsConfirmed(nodes, init, n, k);
    }
  }

  /** The alarm state the context provides. */
  class AuthState {
    var serverLogs: seq<ServerLog>
    var nodes: seq<SiteNode>

    /** The provider starts with no logs and no sites. */
    constructor ()
      ensures serverLogs == [] && nodes == []
    {
      serverLogs := [];
      nodes := [];
    }

    /** Nothing the provider exposes ever fills its lists. */
    ghost predicate Valid()
      reads this
    {
      serverLogs == [] && nodes == []
    }

    /** `confirmAlarm`: a copy of the logs with the first slot for `ip` overwritten. */
    method ConfirmAlarm(ip: string)
      modifies this
      ensures serverLogs == ConfirmedLogs(old(serverLogs), ip)
      ensures nodes == old(nodes)
      ensures old(Valid()) ==> Valid()
    {
      var index := FirstIndex(serverLogs, (item: ServerLog) => item.ip == ip);
      if index.Some? {
        var updatedServerLogs := serverLogs;
        updatedServerLogs := updatedServerLogs[index.value := updatedServerLogs[index.value].(confirmed := true)];
        serverLogs := updatedServerLogs;
      }
    }

    /** `checkSitesAlarm` of the provider. */
    function CheckSitesAlarm(): (r: bool)
      reads this
      ensures Valid() ==> !r
    {
      SitesAlarm(serverLogs, nodes)
    }
  }
}
