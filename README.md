# Infrastructure topology dashboard — a Dafny model of its editable core

The dashboard draws each organisation's infrastructure as a topology
diagram. Servers, branches and departments are nodes and network links are
edges. A feed of server logs colours each node by its alarm state. This
project models the parts of the dashboard that edit or compute data:

- **Diagram model** (`topology.dfy`, module `Topology`): the `{graph, nodes,
  edges}` record, the per-node `data`, the server-log record, `getNode`, and
  the address edit `updateCaption` that both diagrams share.
- **Status merge** (`status_merge.dfy`, module `StatusMerge`): each server
  log is written into the first node carrying its IP. The node gets the log's
  health fields and turns to *warning* exactly when the log is an unconfirmed
  alarm. The fold is specified per node: a node ends up with the traces of the
  last log that matches it first. Merging twice equals merging once.
  `ApplyServerLogs` is the loop the effects run.
- **Structure editor** (`structure_editor.dfy`, module `StructureEditor`):
  - `getNewId` is a loop proved to return the first unused `node-i`. A
    pigeonhole argument proves that id is always fresh.
  - The toolbar commands of `handleAdd`: add server, connect (plain or through
    an isolator), disconnect, delete, group, rename and save.
  - The load effect, which labels nodes by their IP's title, resolves icon
    names to icon kinds and merges the logs.
  - The component state is the class `StructureDiagram`.
- **Monitor view** (`monitor_view.dfy`, module `MonitorView`):
  - The read-only diagram's load normalisation (`isRoot` defaulted to false).
  - Its status-to-colour mapping and the drill-down guard of a double click.
  - The component state is the class `MonitorDiagram`.
- **Alarm context** (`alarm_context.dfy`, module `AlarmContext`):
  - `confirmAlarm` marks the first log for an IP as confirmed.
  - `checkSitesAlarm` asks whether some log is an unconfirmed alarm for a
    known site.
  - The provider state is the class `AuthState`.
- **Customisable tables** of the manage and detail pages (`column_table.dfy`,
  module `ColumnTable`):
  - column visibility toggles and the drag-and-drop reorder
    (`HandleDrop` splices, then renumbers by a loop);
  - the case-insensitive search, the column sort and its direction toggle;
  - the visible-column projection and the detail page's 1-based row numbers;
  - the page state is the class `TablePage`.
- **Shared pieces**: `common.dfy` (module `Common`) holds JavaScript's
  `filter`, `findIndex`, `splice` and `map`, and ASCII lower-casing,
  substring search and decimal rendering. `sorting.dfy` (module `Sorting`)
  holds a stable sort driven by a comparator, standing for
  `Array.prototype.sort`.

The calls out of the components become parameters:

- The IP-title query (`getIPTitle`) becomes a function `title: string -> string`.
- lodash's `uniqueId` becomes a `groupSuffix` string.
- The diagram query's answer becomes a `DiagramResponse` value (`QueryError`,
  `NoDiagram` for an answer without data, `NullDiagram` for a null
  `readDiagram`, or `Loaded`).
- The save mutation is modelled by the payload it sends. `ReadBack` states
  what the backend is taken to return for a stored payload: the same fields,
  with no `isRoot` and no animation speed.

The monitor view maps a status to a colour by comparing it with "Critical"
and "Danger". The topology library reports its own statuses in lower case
("warning", "danger"), and the merge writes only those. So the mapping fires
only for a node that still carries a stored status spelled "Critical" or
"Danger"; every node a log has reached is drawn with the default colour
(`MonitorView.LibraryStatusesDrawDefault`, `MonitorView.OnlyStoredStatusesDrawColour`).

## Model

| member | source | states |
|---|---|---|
| Common.Filter | src/app/manage/page.tsx:242-246 | `filter` keeps exactly the elements satisfying the predicate and drops every other element, never adding a copy |
| Common.FilterCopies | src/app/manage/page.tsx:242-246 | each kept element appears as many times as the input holds it, and a dropped one not at all |
| Common.FirstIndex | src/app/manage/page.tsx:209-214 | `findIndex`: the index found satisfies the predicate and no earlier one does; `None` (-1) exactly when no element satisfies it |
| Common.Join | src/app/structure/Diagram.tsx:579-582 | the `reduce` joins the ids with the separator: no parts give the empty string, one part is itself, the first part starts the result and the last part ends it after a separator |
| Common.FilterIsSubsequence | src/app/manage/page.tsx:242-246 | the filtered list keeps the input's order |
| Common.RemoveAt | src/app/manage/page.tsx:219 | `splice(i, 1)` shifts the later elements down by one and keeps the earlier ones |
| Common.InsertAt | src/app/manage/page.tsx:221 | `splice(i, 0, x)` puts `x` at index `i` and shifts the later elements up by one |
| Common.RemoveInserted | src/app/manage/page.tsx:218-221 | removing what was just inserted at the same index restores the list |
| Common.MapMultiset | src/app/manage/page.tsx:224-227 | mapping two permutations of each other gives permutations of each other |
| Common.NatToStringInjective | src/app/structure/Diagram.tsx:403 | two different counters give two different `node-` ids |
| Common.ContainsEmpty | src/app/manage/page.tsx:244 | every string includes the empty term |
| Sorting.Sort | src/app/manage/page.tsx:250-262 | the sort returns a permutation of its input |
| Sorting.SortSorted | src/app/manage/page.tsx:250-262 | with an irreflexive, transitive comparator the result is sorted: nothing is strictly before an element ahead of it |
| Sorting.SortOfSortedIsIdentity | src/app/manage/page.tsx:208 | sorting a list that is already sorted leaves it unchanged |
| Sorting.SortUnrelatedIsIdentity | src/app/manage/page.tsx:250 | a comparator that returns 0 throughout (no sort key) leaves the order unchanged |
| Topology.IsInNodes | src/app/structure/Diagram.tsx:395-397 | `isInNodes`: some node has the id exactly when the id is among the nodes' ids |
| Topology.GetNode | src/app/structure/Diagram.tsx:346-352 | `getNode` returns the first node with the id, and null exactly when no node has it |
| Topology.IpOf | src/app/structure/Diagram.tsx:645 | `data?.ipAddress` is present exactly when the node has data holding an IP, and it equals an IP exactly when the merge's `data?.ipAddress === IP` test holds |
| Topology.LabelFor | src/app/structure/Diagram.tsx:331 | the label is the IP's title, or the IP itself when the title is empty (the empty label when there is no IP either) |
| Topology.Recaption | src/app/structure/Diagram.tsx:321-336 | `updateCaption` changes only the first node with the selected id: its label becomes the title (or caption) and its IP the caption. Every other node is unchanged. It fails when nothing is selected, the id is absent or the node has no data |
| StatusMerge.StatusFor | src/app/structure/Diagram.tsx:736-739 | warning exactly when the log is an alarm that is not confirmed, default otherwise |
| StatusMerge.Stamp | src/app/structure/Diagram.tsx:725-739 | a matched node takes the log's health fields and status; its id, IP and every other field are kept |
| StatusMerge.StampTwice | src/app/structure/Diagram.tsx:705-740 | writing two logs into a node leaves only the second one's traces |
| StatusMerge.FirstWithIp | src/app/structure/Diagram.tsx:721-723 | the first node whose data carries the IP, `None` when there is none |
| StatusMerge.FirstWithIpSameKeys | src/app/structure/Diagram.tsx:771-773 | searching the original list or the updated copy finds the same node, because the merge never changes ids or IPs |
| StatusMerge.MergeOne | src/app/structure/Diagram.tsx:754-790 | one log changes at most one node and keeps every node's id and IP |
| StatusMerge.MergeLogs | src/app/structure/Diagram.tsx:705-740 | folding all logs keeps every node's id and IP |
| StatusMerge.LastMatch | src/app/structure/Diagram.tsx:705-740 | the last log whose first IP match is a given node, `None` exactly when no log matches it first |
| StatusMerge.MergeLogsAt | src/app/structure/Diagram.tsx:705-740 | after the merge a node either is unchanged (no log matches it first) or carries the traces of the last log that does |
| StatusMerge.MergeIdempotent | src/app/structure/Diagram.tsx:750-792 | running the log effect a second time with the same logs changes nothing |
| StatusMerge.LastMatchSameKeys | src/app/structure/Diagram.tsx:771-773 | lists that agree on ids and IPs have the same last match per node |
| StatusMerge.ApplyServerLogs | src/app/structure/Diagram.tsx:750-792 | the effect's loop over the logs, with the index found in the original list, computes `MergeLogs` |
| StructureEditor.GetIcon | src/app/structure/Diagram.tsx:415-426 | only the branch, department and server commands have a picture; the server's is titled "Server" |
| StructureEditor.NodeIdInjective | src/app/structure/Diagram.tsx:403 | distinct counters give distinct ids |
| StructureEditor.FirstFreeIndex | src/app/structure/Diagram.tsx:399-413 | the least `i` not above the node count with `node-i` unused: all smaller ids are in use |
| StructureEditor.FreeIndexUnique | src/app/structure/Diagram.tsx:399-413 | the conditions on `FirstFreeIndex` single out one number |
| StructureEditor.NodeIdSetSize | src/app/structure/Diagram.tsx:402-409 | the ids `node-0` .. `node-(k-1)` are `k` different ids |
| StructureEditor.IdSetSize | src/app/structure/Diagram.tsx:400 | `n` nodes use at most `n` ids |
| StructureEditor.NewIdIsFresh | src/app/structure/Diagram.tsx:399-413 | the id handed out is used by no node, even when the loop runs to the end and returns the node count |
| StructureEditor.GetNewId | src/app/structure/Diagram.tsx:399-413 | the loop with early return yields `FirstFreeIndex`, so an unused id |
| StructureEditor.SelectedItems | src/app/structure/Diagram.tsx:429 | the selected ids that name a node, in selection order |
| StructureEditor.NewNode | src/app/structure/Diagram.tsx:436-458 | the added node has id `node-n`, type node, no children and data holding the picture, and its label `<title>-n` doubles as its IP |
| StructureEditor.AddNode | src/app/structure/Diagram.tsx:432-465 | ADD_SERVER appends exactly one node, `NewNode` of the number `getNewId` returns: id `node-k`, unused, labelled `Server-k` with that label as its IP and the server picture. The router, switch and firewall commands have no picture and change nothing |
| StructureEditor.AddKeepsIdsDistinct | src/app/structure/Diagram.tsx:432-465 | adding a server never creates a duplicate id |
| StructureEditor.LinkEdge | src/app/structure/Diagram.tsx:488-504 | the new edge runs from the first to the second selected node and links them; it is dashed and slowly animated exactly for CONNECT_BY_ISOLATOR |
| StructureEditor.ConnectNodes | src/app/structure/Diagram.tsx:477-519 | with two existing selected nodes, every edge linking them in either direction is dropped and the new edge appended; the other edges stay in order; the graph resets to the default one. Otherwise nothing changes |
| StructureEditor.ReconnectLeavesOneEdge | src/app/structure/Diagram.tsx:488-506 | connecting a pair one way and then the other leaves a single edge between them |
| StructureEditor.DisconnectNodes | src/app/structure/Diagram.tsx:520-542 | the first edge linking the two selected nodes, in either direction, is removed and nothing else; without one the model is unchanged |
| StructureEditor.ConnectThenDisconnect | src/app/structure/Diagram.tsx:477-542 | disconnecting a pair just connected leaves no edge between them |
| StructureEditor.StripAll | src/app/structure/Diagram.tsx:546-558 | each node is stripped of the selected ids among its children |
| StructureEditor.StrippedGroupsForget | src/app/structure/Diagram.tsx:548-557 | after stripping, no group lists a selected node as a child |
| StructureEditor.StrippedKeepsNodes | src/app/structure/Diagram.tsx:546-558 | every node reappears, stripped, in the stripped list |
| StructureEditor.Touches | src/app/structure/Diagram.tsx:561-567 | an edge touches the selection only through an endpoint in it; when the empty id is not selected, exactly when an endpoint is selected |
| StructureEditor.KeptNodes | src/app/structure/Diagram.tsx:546-560 | no selected node survives; every unselected node survives, stripped, in order |
| StructureEditor.KeptEdges | src/app/structure/Diagram.tsx:561-567 | exactly the edges touching no selected node survive, in order |
| StructureEditor.DeleteNodes | src/app/structure/Diagram.tsx:543-575 | DELETE removes the selected nodes, their child entries and every edge touching them, keeps the rest in order and resets the graph; with nothing selected it changes nothing |
| StructureEditor.DeleteKeepsEdgesAttached | src/app/structure/Diagram.tsx:543-575 | a model without dangling edges has none after DELETE |
| StructureEditor.GroupNode | src/app/structure/Diagram.tsx:579-592 | the group has the selected ids as children, no data, the ids joined by `-` as its label and the label plus `-<suffix>` as its id; with a member it is not an empty group |
| StructureEditor.Regrouped | src/app/structure/Diagram.tsx:594-601 | the new group is last, no group without members is left, every other member-ful node is kept in order |
| StructureEditor.GroupNodes | src/app/structure/Diagram.tsx:576-603 | GROUP of two or more nodes appends the group and drops the empty groups; otherwise nothing changes |
| StructureEditor.RenameCaption | src/app/structure/Diagram.tsx:466-476 | RENAME opens the dialog exactly when the first selected id names a node with data; the caption is that first node's IP, absent when its data has none |
| StructureEditor.RenameOpensIffCaptionApplies | src/app/structure/Diagram.tsx:321-336 | the dialog opens exactly when the caption it submits can be applied |
| StructureEditor.Dispatch | src/app/structure/Diagram.tsx:428-665 | `handleAdd` on the model: rename, save and the picture-less adds leave it unchanged; only add-server, delete and group touch the nodes; only the connect/disconnect commands and delete touch the edges |
| StructureEditor.DisplayName | src/app/structure/Diagram.tsx:644 | the icon name the save writes is undefined for every icon the model can hold |
| StructureEditor.IconName | src/app/structure/Diagram.tsx:77-88 | a name for each icon that `getIconComponent` maps back to the same kind |
| StructureEditor.IconComponent | src/app/structure/Diagram.tsx:77-88 | `getIconComponent`: "ServerIcon" and "DepartmentIcon" give their components, anything else a branch |
| StructureEditor.SaveAsWritten | src/app/structure/Diagram.tsx:604-660 | the payload as the source builds it: the organisation; the graph's id and layout, the layout also as its type; per node, in order, its id, label, type, group flag, children, status, geometry, padding, badge and IP; per edge its id, endpoints, type and style; and no node with an icon name |
| StructureEditor.Save | src/app/structure/Diagram.tsx:604-660 | the same payload field for field, with each node's icon written by the name `getIconComponent` maps back |
| StructureEditor.SavesDifferOnlyInIcons | src/app/structure/Diagram.tsx:644 | the corrected save and the save as written send the same payload apart from the icon names |
| StructureEditor.ReadBack | src/app/structure/Diagram.tsx:673-680 | a stored payload comes back as a loaded diagram of the same size in which every node has a data record |
| StructureEditor.LoadNode | src/app/structure/Diagram.tsx:689-697 | only the label and the icon of a stored node change on load |
| StructureEditor.LoadNodes | src/app/structure/Diagram.tsx:680-701 | each stored node is labelled by its IP's title and its icon resolved by `getIconComponent` |
| StructureEditor.LoadModel | src/app/structure/Diagram.tsx:673-747 | a query error or an answer without data (as before the query answers) gives the empty model; a null `readDiagram`, whose destructuring throws, sets no model, and neither does a stored node without data, on which the preparation throws; otherwise the stored graph and edges, and per node its id, type, children, geometry, IP and badge, the label from its IP's title and the icon resolved by `getIconComponent` |
| StructureEditor.LoadThenMergeIsStable | src/app/structure/Diagram.tsx:750-792 | the log effect that runs after a load with the same logs changes nothing |
| StructureEditor.SaveLoadRoundTrip | src/app/structure/Diagram.tsx:604-747 | with the icon saved by name, every model reloads, groups included: each node keeps every saved field, IP and badge, is labelled from its IP, and an icon picked as a component or picture comes back as that component; `isRoot` and the animation speed are not saved |
| StructureEditor.SaveAsWrittenLosesServerIcon | src/app/structure/Diagram.tsx:644 | with the source's save, a server node reloads drawn as a branch |
| StructureEditor.StructureDiagram.HandleAdd | src/app/structure/Diagram.tsx:428-665 | the command's effect on the model is `Dispatch`; SAVE_DIAGRAM returns the payload as the source builds it (`SaveAsWritten`); RENAME opens the dialog with the caption exactly when `RenameCaption` finds one |
| StructureEditor.StructureDiagram.UpdateCaption | src/app/structure/Diagram.tsx:321-336 | the model becomes `Recaption`'s result and the caption is kept, or nothing changes when it fails |
| StructureEditor.StructureDiagram.OnServerLogs | src/app/structure/Diagram.tsx:750-792 | the nodes become `MergeLogs` of the logs, nothing else changes |
| StructureEditor.StructureDiagram.Load | src/app/structure/Diagram.tsx:673-747 | the accumulating loop and the merge set the model to `LoadModel`'s result; an answer without data sets the empty model; the loop stops at a node without data, and then, as on a null `readDiagram`, the model is left alone |
| MonitorView.MonitorNode | src/app/monitor/Diagram.tsx:344-354 | the node is labelled by its IP's title and `isRoot` becomes a definite boolean, true exactly when it was true; nothing else changes |
| MonitorView.MonitorNodes | src/app/monitor/Diagram.tsx:336-358 | every stored node prepared, in order |
| MonitorView.MonitorNodesSameKeys | src/app/monitor/Diagram.tsx:360-400 | preparing the nodes keeps the ids and IPs the merge looks at |
| MonitorView.LoadModel | src/app/monitor/Diagram.tsx:329-405 | a query error or an answer without data (as before the query answers) gives the empty model; a null `readDiagram`, whose destructuring throws, or a stored node without data sets no model; otherwise the stored graph and edges, the same node keys, and per node its id, type, children, geometry, IP and icon name, the label from its IP's title and `isRoot` true exactly when it was stored as true |
| MonitorView.DisplayStatus | src/app/monitor/Diagram.tsx:121-123 | "Critical" is drawn as danger, "Danger" as warning, anything else as default |
| MonitorView.LibraryStatusesDrawDefault | src/app/monitor/Diagram.tsx:121-123 | none of the library's own status names reaches the danger or warning colour |
| MonitorView.OnlyStoredStatusesDrawColour | src/app/monitor/Diagram.tsx:121-123 | a status is drawn in colour exactly when it is a stored "Critical" or "Danger", and no status the merge writes is |
| MonitorView.DrillDownTarget | src/app/monitor/Diagram.tsx:114-119 | a double click opens the node's sub-organisation page unless it is a root, a server or a department |
| MonitorView.LoadedBranchDrillsDown | src/app/monitor/Diagram.tsx:329-405 | after loading and merging, a node that is none of those still drills down to its own page |
| MonitorView.MonitorDiagram.UpdateCaption | src/app/monitor/Diagram.tsx:254-268 | the model becomes `Recaption`'s result, or nothing changes when it fails |
| MonitorView.MonitorDiagram.OnServerLogs | src/app/monitor/Diagram.tsx:408-449 | the nodes become `MergeLogs` of the logs |
| MonitorView.MonitorDiagram.Load | src/app/monitor/Diagram.tsx:329-405 | the accumulating loop and the merge set the model to `LoadModel`'s result; an answer without data sets the empty model; the loop stops at a node without data, and then, as on a null `readDiagram`, the model is left alone |
| AlarmContext.ConfirmedLogs | src/context/AuthContext.tsx:121-137 | only the first log with the IP changes, and it becomes confirmed; without one the logs are unchanged; IPs and earlier confirmations are kept |
| AlarmContext.ConfirmIdempotent | src/context/AuthContext.tsx:121-137 | confirming twice is confirming once |
| AlarmContext.SitesAlarm | src/context/AuthContext.tsx:139-153 | true exactly when some log is an unconfirmed alarm for an IP some site carries |
| AlarmContext.SitesAlarmAt | src/context/AuthContext.tsx:139-153 | the alarm check holds exactly when some single log raises an alarm |
| AlarmContext.ProviderNeverAlarms | src/context/AuthContext.tsx:113 | with the provider's empty site list the alarm check is false, unlike the default context's check, which answers true |
| AlarmContext.ConfirmSilences | src/context/AuthContext.tsx:121-153 | with one log per IP, confirming an IP silences its log; the alarm check then fires exactly when another log alarms |
| AlarmContext.ConfirmedNodeTurnsDefault | src/context/AuthContext.tsx:121-137 | with one log per IP, a confirmed alarm turns its node back to default at the next merge, and a fresh alarm for the IP turns it to warning again |
| AlarmContext.DuplicateLogKeepsWarning | src/context/AuthContext.tsx:121-137 | with two alarms for a node's IP, confirming marks only the first log, and the node, stamped with the last, stays a warning |
| AlarmContext.LastMatchIsConfirmed | src/context/AuthContext.tsx:121-137 | when one log alone matches a node first, it is the node's last match |
| AlarmContext.AuthState.ConfirmAlarm | src/context/AuthContext.tsx:121-137 | the logs become `ConfirmedLogs`; the sites are unchanged; an empty provider stays empty |
| AlarmContext.AuthState.CheckSitesAlarm | src/context/AuthContext.tsx:139-153 | in the provider's reachable states the alarm check answers false |
| ColumnTable.InitialOrders | src/app/detail/page.tsx:57-83 | the manage page's twelve columns are ordered from 0; the detail page's twenty-five from 1 |
| ColumnTable.ToggleVisibility | src/app/manage/page.tsx:178-184 | only the columns with the id flip `visible`; id, name and order are kept |
| ColumnTable.ToggleTwice | src/app/detail/page.tsx:128-134 | toggling twice restores the columns |
| ColumnTable.ToggleOthersUnchanged | src/app/manage/page.tsx:178-184 | any other column is left exactly as it was |
| ColumnTable.ByOrder | src/app/manage/page.tsx:208 | the columns sorted by `order`: a permutation with non-decreasing orders |
| ColumnTable.ByOrderOfOrdered | src/app/manage/page.tsx:208 | columns already in ascending order are their own display order |
| ColumnTable.Move | src/app/manage/page.tsx:218-221 | the two splices put the moved element at the target index; the result is a permutation; the other elements keep their order |
| ColumnTable.MoveBack | src/app/manage/page.tsx:218-221 | dragging the element back where it came from restores the list |
| ColumnTable.Renumber | src/app/manage/page.tsx:224-227 | the orders become 0..n-1 and nothing else changes |
| ColumnTable.ColumnIndex | src/app/manage/page.tsx:209-214 | the index of the first column with the id, `None` exactly when no column has it |
| ColumnTable.HasColumnPermutation | src/app/manage/page.tsx:208-216 | sorting keeps the set of ids, so `findIndex` on the sorted copy fails exactly when the id is absent |
| ColumnTable.ReorderFacts | src/app/manage/page.tsx:218-227 | moving and renumbering keeps the columns up to their orders, puts the dragged column at the target index and keeps the others' relative order |
| ColumnTable.Reorder | src/app/manage/page.tsx:208-227 | a drop fails exactly when either id is missing. Otherwise the orders become 0..n-1 and the columns are the same apart from their orders. The dragged column takes the target's index in the display order and the others keep their relative order |
| ColumnTable.ReorderSteps | src/app/detail/page.tsx:157-177 | the reorder is: sort a copy, find both indices, splice and renumber |
| ColumnTable.ReorderedIsInDisplayOrder | src/app/detail/page.tsx:174-177 | a reordered list is already in display order |
| ColumnTable.VisibleColumns | src/app/manage/page.tsx:289-291 | exactly the visible columns, as a permutation of the filtered list, with non-decreasing orders |
| ColumnTable.ToggleShowsOrHides | src/app/detail/page.tsx:252-254 | a toggled column shows exactly when it was hidden |
| ColumnTable.ValueText | src/app/detail/page.tsx:194 | `toString`: a string as it is, an integer in decimal with a minus sign when negative |
| ColumnTable.FilterRows | src/app/detail/page.tsx:192-196 | a subsequence of the rows holding exactly the rows with a field whose lower-cased text contains the lower-cased term |
| ColumnTable.EmptySearchKeepsRows | src/app/manage/page.tsx:242-246 | an empty term keeps every row exactly when every row has a field |
| ColumnTable.SearchIgnoresCase | src/app/manage/page.tsx:244 | terms that agree up to case select the same rows |
| ColumnTable.StrLessIrreflexive | src/app/manage/page.tsx:255 | no string is below itself |
| ColumnTable.StrLessTransitive | src/app/manage/page.tsx:255-260 | string `<` is transitive |
| ColumnTable.StrLessTotal | src/app/manage/page.tsx:255-260 | two different strings are ordered one way or the other |
| ColumnTable.ValueLessStrict | src/app/detail/page.tsx:205-210 | the cell comparison is irreflexive and transitive |
| ColumnTable.RowBeforeStrict | src/app/detail/page.tsx:199-212 | the comparator is a strict order on the rows |
| ColumnTable.SortRows | src/app/detail/page.tsx:199-212 | the sort is a permutation; with no key it keeps the order; otherwise no row comes after one it should precede (ascending or descending) |
| ColumnTable.SortedByKey | src/app/manage/page.tsx:249-262 | sorted by the comparator means ordered by the key's cells in the chosen direction |
| ColumnTable.UnkeyedSortKeepsOrder | src/app/manage/page.tsx:250 | a null or empty key leaves the rows in their order |
| ColumnTable.AscendingStringsAreOrdered | src/app/manage/page.tsx:249-262 | on a string column the ascending sort puts each cell at or before the next alphabetically |
| ColumnTable.NextSort | src/app/manage/page.tsx:265-273 | a click sorts by the clicked column, descending exactly when it was already the ascending sort column |
| ColumnTable.SortAlternates | src/app/detail/page.tsx:215-223 | repeated clicks on the same header alternate the direction with period two |
| ColumnTable.TableBody | src/app/detail/page.tsx:394-400 | each row is drawn with number `index + 1` and one cell per visible column |
| ColumnTable.RowNumbersDistinct | src/app/detail/page.tsx:394-400 | the row numbers increase along the table and the last is the row count |
| ColumnTable.SpliceAndRenumber | src/app/manage/page.tsx:218-227 | the in-place splices and the renumbering give `Renumber(Move(...))` |
| ColumnTable.TablePage.ToggleColumnVisibility | src/app/manage/page.tsx:178-184 | the columns become `ToggleVisibility`'s result; nothing else changes |
| ColumnTable.TablePage.HandleDragStart | src/app/manage/page.tsx:187-189 | the dragged column is recorded; nothing else changes |
| ColumnTable.TablePage.HandleDragOver | src/app/manage/page.tsx:192-197 | the hovered column is recorded unless it is the dragged one |
| ColumnTable.TablePage.HandleDrop | src/app/manage/page.tsx:200-233 | nothing dragged or a self drop only clears the drag state; a missing id leaves everything untouched; any other drop sets the columns to `Reorder`'s result and clears the drag state |
| ColumnTable.TablePage.HandleDragEnd | src/app/manage/page.tsx:236-239 | the drag state is cleared |
| ColumnTable.TablePage.HandleSort | src/app/detail/page.tsx:215-223 | the sort configuration becomes `NextSort`'s result |
| ColumnTable.TablePage.SetColumns | src/app/manage/page.tsx:283-286 | reset (and the detail page's stored-setting effect) sets the columns to the given defaults |
| ColumnTable.TablePage.SetSearchTerm | src/app/manage/page.tsx:305 | the search term becomes the typed text; nothing else changes |
| ColumnTable.TablePage.SortedData | src/app/manage/page.tsx:242-262 | the shown rows are `SortRows` of `FilterRows`: exactly the matching rows, a permutation of the filtered list, ordered by the sort column in the chosen direction |
| ColumnTable.TablePage.Visible | src/app/detail/page.tsx:252-254 | the header shows exactly the visible columns, in non-decreasing `order` |

## Left out

- Rendering, the PatternFly controller, the side bars, toolbars, dialogs, toasts and the sound: they draw or notify and compute nothing the model needs.
- GraphQL calls, routing, local storage and authentication are left out. The IP-title lookup and `uniqueId` are parameters. The diagram query's answer is a `DiagramResponse`. The save is the payload it sends.
- The detail page's `saveColumnConfig` is a server call that only sends `columns`, so it is not modelled.
- Mock data generation and locale date formatting are not modelled.
- The sidebar's `displayName === "ClusterIcon"` test is left out, because it is rendering.
- `getIconComponent` returns React elements. Icons are the enum `IconKind`, and an imported svg picture is `Asset(kind)`.
- Asynchrony is left out: a later response overtaking an earlier one, and the awaited IP-title calls interleaving with other updates. Each effect is modelled as one atomic state change.
- In-place aliasing is left out. The source writes the new label into the node object before throwing on a node without data. The model treats such a throw (`Recaption` returning `None`) as no change.
- An edge's `style` (its `strokeWidth`) is not modelled: it is only drawn, and the save does not send it. The nodes' shape, size and position are carried as opaque `Geometry` values.
- `StructureEditor.EmptyGroup` and `StructureEditor.StripChildren`: a node's `children` is always a list. In the source a stored group without a `children` field is kept by GROUP's filter (`children?.length === 0` is false for it) and left alone by DELETE's strip; the model has no such group.
- `Topology.LabelFor`: a node without an IP and with an empty title gets the label `undefined` in the source and the empty label in the model. What the IP-title lookup answers for an absent IP is left to the `title` parameter.
- `AlarmContext.AuthState`: `setServerLogs` and `setNodes` are not exposed by the provider (the site query is commented out), so its lists stay empty. `confirmAlarm`'s `typeof … === "object"` guard always holds for log records and is not modelled.
- `StructureEditor.LoadModel` and `MonitorView.LoadModel` do not state each node's merged status and health; `StatusMerge.MergeLogsAt` states them.
- `StructureEditor.ReadBack`: what the backend returns is outside this repository. The model assumes it stores the payload and returns its fields, with `isRoot` and the animation speed absent, and with the `data` record the payload always has (so a group comes back with data holding no IP).
- `AlarmContext.ConfirmedNodeTurnsDefault` holds with one log per IP only. With two logs for one IP, `confirmAlarm` confirms the first and the merge stamps the node with the last, so the node stays a warning (`AlarmContext.DuplicateLogKeepsWarning`).
- `ColumnTable.SortRows`: it is a stable insertion sort. The result matches `Array.prototype.sort` when the comparator is consistent. A column mixing strings and numbers, where JavaScript's `<` converts between them, is treated as unordered, and the engine's order for such a comparator is not modelled. The same holds for a row missing the sort field: `ValueLess` is false both ways for it, so SortRows may order it differently from the engine (for `[{k:2}, {}, {k:1}]` ascending, V8 keeps the input order while SortRows gives `[{k:1}, {k:2}, {}]`).
- `ColumnTable.ValueText` and `Common.Lower`: numbers are integers, and lower-casing covers ASCII letters only. Floating-point fields and Unicode case folding are not modelled.
- `ColumnTable.StrLess` compares characters by code point, not by UTF-16 code unit. The two differ only for characters outside the Basic Multilingual Plane.
- Rows whose fields are `null` make the source's `toString` throw. Rows are modelled with string and integer fields only.
- The save payload carries no `isRoot`.

## Findings

| source | as written | input that shows it | evidently intended | confidence | as-written member | corrected member |
|---|---|---|---|---|---|---|
| src/app/structure/Diagram.tsx:644 | the save writes `data?.icon?.displayName` as the icon name, which is undefined for a string tag, an icon element and an imported svg picture | a server added with ADD_SERVER, then saved and reloaded: its icon name is undefined and `getIconComponent` draws it as a branch | write the icon's name ("ServerIcon", ...) so that `getIconComponent` maps it back to the same icon | medium, not executed | StructureEditor.SaveAsWritten, StructureEditor.SaveAsWrittenLosesServerIcon | StructureEditor.Save, StructureEditor.SaveLoadRoundTrip |
