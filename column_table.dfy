/** The customisable tables of the manage page and the detail page: a list
    of columns that can be shown or hidden and reordered by drag and drop,
    a case-insensitive search over the rows, a sort on one column that
    alternates between ascending and descending, and the rows drawn in the
    visible columns, numbered from 1 on the detail page. The two pages run
    the same column, filter and sort code; they differ in their columns and
    in what "reset" restores. */
module ColumnTable {
  import opened Common
  import opened Sorting

  /** A column of the table: `order` is its place in the display order. */
  datatype Column = Column(id: string, name: string, visible: bool, order: int)

  /** The manage page's columns: orders 0 to 11. */
  const MANAGE_INITIAL_COLUMNS: seq<Column> := [
    Column("department", "Department", true, 0),
    Column("description", "Description", true, 1),
    Column("type", "Type", true, 2),
    Column("location", "Location", true, 3),
    Column("ipAddress", "IP Address", true, 4),
    Column("macAddress", "MAC Address", false, 5),
    Column("manufacturer", "Manufacturer", false, 6),
    Column("model", "Model", true, 7),
    Column("serialNumber", "Serial Number", false, 8),
    Column("installDate", "Install Date", true, 9),
    Column("lastMaintenance", "Last Maintenance", false, 10),
    Column("status", "Status", true, 11)
  ]

  /** The detail page's columns before the stored setting arrives: orders 1 to 25. */
  const DETAIL_INITIAL_COLUMNS: seq<Column> := [
    Column("AverageByte", "AverageByte", true, 1),
    Column("Device", "Device", true, 2),
    Column("IPv4_Dst", "IPv4_Dst", true, 3),
    Column("MACDst", "MACDst", true, 4),
    Column("MACProto", "MACProto", true, 5),
    Column("MACSrc", "MACSrc", true, 6),
    Column("TCP_ACK", "TCP_ACK", false, 7),
    Column("TCP_FIN", "TCP_FIN", false, 8),
    Column("TCP_PSH", "TCP_PSH", false, 9),
    Column("TCP_Port_Dst", "TCP_Port_Dst", true, 10),
    Column("TCP_Port_Src", "TCP_Port_Src", true, 11),
    Column("TCP_RST", "TCP_RST", false, 12),
    Column("TCP_SACK", "TCP_SACK", false, 13),
    Column("TCP_SYN", "TCP_SYN", false, 14),
    Column("TS", "TS", true, 15),
    Column("TotalByte", "TotalByte", true, 16),
    Column("TotalPkt", "TotalPkt", true, 17),
    Column("capturename", "capturename", true, 18),
    Column("hash", "hash", false, 19),
    Column("uid", "uid", true, 20),
    Column("IndexPattern", "IndexPattern", true, 21),
    Column("AttackType", "AttackType", true, 22),
    Column("AttackLevel", "AttackLevel", true, 23),
    Column("Agency", "Agency", true, 24),
    Column("createdAt", "createdAt", true, 25)
  ]

  /** The initial orders: the manage page counts from 0, the detail page from 1. */
  lemma InitialOrders()
    ensures |MANAGE_INITIAL_COLUMNS| == 12 && |DETAIL_INITIAL_COLUMNS| == 25
    ensures forall i :: 0 <= i < |MANAGE_INITIAL_COLUMNS| ==> MANAGE_INITIAL_COLUMNS[i].order == i
    ensures forall i :: 0 <= i < |DETAIL_INITIAL_COLUMNS| ==> DETAIL_INITIAL_COLUMNS[i].order == i + 1
  {
  }

  // ---------------------------------------------------------------------
  // Column visibility

  /** `toggleColumnVisibility`: the columns with id `id` flip `visible`; nothing else changes. */
  function ToggleVisibility(columns: seq<Column>, id: string): (r: seq<Column>)
    ensures |r| == |columns|
    ensures forall i :: 0 <= i < |columns| ==>
      && r[i].id == columns[i].id && r[i].name == columns[i].name && r[i].order == columns[i].order
      && (r[i].visible <==> (if columns[i].id == id then !columns[i].visible else columns[i].visible))
  {
    seq(|columns|, i requires 0 <= i < |columns| =>
      if columns[i].id == id then columns[i].(visible := !columns[i].visible) else columns[i])
  }

  /** Toggling the same column twice restores the columns. */
  lemma ToggleTwice(columns: seq<Column>, id: string)
    ensures ToggleVisibility(ToggleVisibility(columns, id), id) == columns
  {
    var twice := ToggleVisibility(ToggleVisibility(columns, id), id);
    forall i | 0 <= i < |columns| ensures twice[i] == columns[i] {
    }
  }

  /** Toggling one column leaves every other column as it was. */
  lemma ToggleOthersUnchanged(columns: seq<Column>, id: string, i: nat)
    requires i < |columns| && columns[i].id != id
    ensures ToggleVisibility(columns, id)[i] == columns[i]
  {
  }

  // ---------------------------------------------------------------------
  // Display order

  /** The comparator `a.order - b.order` read as "strictly before". */
  predicate OrderLess(a: Column, b: Column)
  {
    a.order < b.order
  }

  /** `[...columns].sort((a, b) => a.order - b.order)`: a stable sort by `order`. */
  function ByOrder(columns: seq<Column>): (r: seq<Column>)
    ensures |r| == |columns| && multiset(r) == multiset(columns)
    ensures forall i, j :: 0 <= i < j < |r| ==> r[i].order <= r[j].order
  {
    SortSorted(columns, OrderLess);
    Sort(columns, OrderLess)
  }

  /** Columns whose orders already ascend are their own display order. */
  lemma ByOrderOfOrdered(columns: seq<Column>)
    requires forall i, j :: 0 <= i < j < |columns| ==> columns[i].order <= columns[j].order
    ensures ByOrder(columns) == columns
  {
    SortOfSortedIsIdentity(columns, OrderLess);
  }

  /** Some column has this id. */
  predicate HasColumn(columns: seq<Column>, id: string)
  {
    exists c :: c in columns && c.id == id
  }

  /** `s[i]` moved to index `j`: the two splices of the drop handler. */
  function Move<T>(s: seq<T>, i: nat, j: nat): (r: seq<T>)
    requires i < |s| && j < |s|
    ensures |r| == |s| && r[j] == s[i]
    ensures multiset(r) == multiset(s)
    ensures RemoveAt(r, j) == RemoveAt(s, i)
  {
    RemoveAtMultiset(s, i);
    InsertAtMultiset(RemoveAt(s, i), j, s[i]);
    RemoveInserted(RemoveAt(s, i), j, s[i]);
    InsertAt(RemoveAt(s, i), j, s[i])
  }

  /** Dragging the moved element back to where it came from restores the list. */
  lemma MoveBack<T>(s: seq<T>, i: nat, j: nat)
    requires i < |s| && j < |s|
    ensures Move(Move(s, i, j), j, i) == s
  {
    var m := Move(s, i, j);
    var back := Move(m, j, i);
    assert RemoveAt(back, i) == RemoveAt(s, i);
    forall k | 0 <= k < |s| ensures back[k] == s[k] {
      if k < i {
        assert back[k] == RemoveAt(back, i)[k];
      } else if k > i {
        assert back[k] == RemoveAt(back, i)[k - 1];
      }
    }
  }

  /** `orderedColumns.map((col, index) => ({...col, order: index}))` */
  function Renumber(columns: seq<Column>): (r: seq<Column>)
    ensures |r| == |columns|
    ensures forall i :: 0 <= i < |r| ==> r[i].order == i
    ensures forall i :: 0 <= i < |r| ==> r[i].(order := columns[i].order) == columns[i]
  {
    seq(|columns|, i requires 0 <= i < |columns| => columns[i].(order := i))
  }

  function ForgetOrder(c: Column): Column
  {
    c.(order := 0)
  }

  /** The columns with their orders erased: what a reorder must keep. */
  function Unnumbered(columns: seq<Column>): (r: seq<Column>)
    ensures |r| == |columns|
    ensures forall i :: 0 <= i < |r| ==> r[i] == columns[i].(order := 0)
  {
    Map(columns, ForgetOrder)
  }

  lemma UnnumberedRenumber(columns: seq<Column>)
    ensures Unnumbered(Renumber(columns)) == Unnumbered(columns)
  {
  }

  lemma UnnumberedRemoveAt(columns: seq<Column>, i: nat)
    requires i < |columns|
    ensures Unnumbered(RemoveAt(columns, i)) == RemoveAt(Unnumbered(columns), i)
  {
  }

  /** `columns.findIndex(col => col.id === id)`, `None` for -1. */
  function ColumnIndex(columns: seq<Column>, id: string): (r: Option<nat>)
    ensures r.None? <==> !HasColumn(columns, id)
    ensures r.Some? ==> r.value < |columns| && columns[r.value].id == id
    ensures r.Some? ==> forall k :: 0 <= k < r.value ==> columns[k].id != id
  {
    var r := FirstIndex(columns, (c: Column) => c.id == id);
    assert r.Some? ==> columns[r.value] in columns;
    r
  }

  /** Two permutations of each other have the same ids. */
  lemma HasColumnPermutation(a: seq<Column>, b: seq<Column>)
    requires multiset(a) == multiset(b)
    ensures forall id :: HasColumn(a, id) <==> HasColumn(b, id)
  {
    assert forall c :: c in a <==> c in multiset(a);
    assert forall c :: c in b <==> c in multiset(b);
  }

  /** What moving display index `s` to index `t` and renumbering keeps. */
  lemma ReorderFacts(columns: seq<Column>, s: nat, t: nat)
    requires s < |columns| && t < |columns|
    ensures var ordered := ByOrder(columns);
      var r := Renumber(Move(ordered, s, t));
      && multiset(Unnumbered(r)) == multiset(Unnumbered(columns))
      && r[t] == ordered[s].(order := t)
      && Unnumbered(RemoveAt(r, t)) == Unnumbered(RemoveAt(ordered, s))
  {
    var ordered := ByOrder(columns);
    var moved := Move(ordered, s, t);
    var r := Renumber(moved);
    UnnumberedRenumber(moved);
    MapMultiset(moved, ordered, ForgetOrder);
    MapMultiset(ordered, columns, ForgetOrder);
    UnnumberedRemoveAt(r, t);
    UnnumberedRemoveAt(moved, t);
    UnnumberedRemoveAt(ordered, s);
  }

  /** The reorder of a drop of column `dragged` onto column `target`: the
      columns in display order, the dragged one taken out and put in at the
      target's index, and the orders renumbered 0..n-1. `None` when either id
      is missing. */
  function Reorder(columns: seq<Column>, dragged: string, target: string): (r: Option<seq<Column>>)
    ensures r.None? <==> !HasColumn(columns, dragged) || !HasColumn(columns, target)
    ensures r.Some? ==> |r.value| == |columns|
    // the orders become exactly 0..n-1
    ensures r.Some? ==> forall i :: 0 <= i < |r.value| ==> r.value[i].order == i
    // the same columns, only their orders differ
    ensures r.Some? ==> multiset(Unnumbered(r.value)) == multiset(Unnumbered(columns))
    // the dragged column takes the target's index in the display order and the
    // other columns keep their relative order
    ensures r.Some? ==> exists s, t :: (
      && 0 <= s < |columns| && 0 <= t < |columns|
      && ByOrder(columns)[s].id == dragged && ByOrder(columns)[t].id == target
      && (forall k :: 0 <= k < s ==> ByOrder(columns)[k].id != dragged)
      && (forall k :: 0 <= k < t ==> ByOrder(columns)[k].id != target)
      && r.value[t] == ByOrder(columns)[s].(order := t)
      && Unnumbered(RemoveAt(r.value, t)) == Unnumbered(RemoveAt(ByOrder(columns), s)))
  {
    var ordered := ByOrder(columns);
    HasColumnPermutation(ordered, columns);
    match (ColumnIndex(ordered, dragged), ColumnIndex(ordered, target))
    case (Some(s), Some(t)) =>
      ReorderFacts(columns, s, t);
      Some(Renumber(Move(ordered, s, t)))
    case _ => None
  }

  /** `Reorder` spelled out step by step, as the drop handler runs it. */
  lemma ReorderSteps(columns: seq<Column>, dragged: string, target: string)
    ensures var ordered := ByOrder(columns);
      var s := ColumnIndex(ordered, dragged);
      var t := ColumnIndex(ordered, target);
      Reorder(columns, dragged, target) ==
        if s.Some? && t.Some? then Some(Renumber(Move(ordered, s.value, t.value))) else None
  {
  }

  /** A reordered column list is already in display order. */
  lemma ReorderedIsInDisplayOrder(columns: seq<Column>, dragged: string, target: string)
    requires Reorder(columns, dragged, target).Some?
    ensures ByOrder(Reorder(columns, dragged, target).value) == Reorder(columns, dragged, target).value
  {
    ByOrderOfOrdered(Reorder(columns, dragged, target).value);
  }

  /** The shown columns: `columns.filter(col => col.visible).sort(by order)`. */
  function VisibleColumns(columns: seq<Column>): (r: seq<Column>)
    ensures forall c :: c in r <==> c in columns && c.visible
    ensures multiset(r) == multiset(Filter(columns, (c: Column) => c.visible))
    ensures forall i, j :: 0 <= i < j < |r| ==> r[i].order <= r[j].order
  {
    var shown := Filter(columns, (c: Column) => c.visible);
    var r := ByOrder(shown);
    assert forall c :: c in r <==> c in multiset(r);
    assert forall c :: c in shown <==> c in multiset(shown);
    r
  }

  /** Toggling a column shows it exactly when it was hidden. */
  lemma ToggleShowsOrHides(columns: seq<Column>, i: nat)
    requires i < |columns|
    ensures var c := columns[i];
      c.(visible := !c.visible) in VisibleColumns(ToggleVisibility(columns, c.id)) <==> !c.visible
  {
    var c := columns[i];
    var toggled := ToggleVisibility(columns, c.id);
    assert toggled[i] == c.(visible := !c.visible);
    assert toggled[i] in toggled;
  }

  // ---------------------------------------------------------------------
  // Rows: search

  /** A field value of a row: the pages' records hold strings and integers. */
  datatype Value = Str(s: string) | Num(n: int)

  /** A row: its field names and values (`Object.values` ranges over them). */
  type Row = map<string, Value>

  /** `value.toString()` */
  function ValueText(v: Value): (r: string)
    ensures v.Str? ==> r == v.s
    ensures v.Num? && v.n >= 0 ==> r == NatToString(v.n)
    ensures v.Num? && v.n < 0 ==> r == "-" + NatToString(-v.n)
  {
    match v
    case Str(s) => s
    case Num(n) => if n >= 0 then NatToString(n) else "-" + NatToString(-n)
  }

  /** Some field of the row, lower-cased, contains the lower-cased term. */
  predicate RowMatches(row: Row, term: string)
  {
    exists k :: k in row && Contains(Lower(ValueText(row[k])), Lower(term))
  }

  /** `filteredData`: the rows that match the search term, in their order. */
  function FilterRows(rows: seq<Row>, term: string): (r: seq<Row>)
    ensures IsSubsequence(r, rows)
    ensures forall row :: row in r <==> row in rows && RowMatches(row, term)
  {
    FilterIsSubsequence(rows, (row: Row) => RowMatches(row, term));
    Filter(rows, (row: Row) => RowMatches(row, term))
  }

  /** An empty search keeps exactly the rows that have some field: every row of the pages. */
  lemma EmptySearchKeepsRows(rows: seq<Row>)
    ensures FilterRows(rows, "") == rows <==> forall row :: row in rows ==> |row| > 0
  {
    var p := (row: Row) => RowMatches(row, "");
    forall row | row in rows && |row| > 0 ensures p(row) {
      var k :| k in row;
      ContainsEmpty(Lower(ValueText(row[k])));
    }
    if forall row :: row in rows ==> |row| > 0 {
      FilterAllKept(rows, p);
    }
  }

  /** The search ignores the case of the term. */
  lemma SearchIgnoresCase(rows: seq<Row>, a: string, b: string)
    requires Lower(a) == Lower(b)
    ensures FilterRows(rows, a) == FilterRows(rows, b)
  {
    FilterSamePredicate(rows, (row: Row) => RowMatches(row, a), (row: Row) => RowMatches(row, b));
  }

  // ---------------------------------------------------------------------
  // Rows: sort

  datatype Direction = Ascending | Descending

  /** `sortConfig`: the key is `null` (`None`) until a header is clicked. */
  datatype SortConfig = SortConfig(key: Option<string>, direction: Direction)

  const INITIAL_SORT := SortConfig(None, Ascending)

  /** JavaScript's `<` on two strings: lexicographic by character. */
  predicate StrLess(a: string, b: string)
  {
    if b == [] then false
    else if a == [] then true
    else if a[0] != b[0] then a[0] < b[0]
    else StrLess(a[1..], b[1..])
  }

  lemma {:induction false} StrLessIrreflexive(a: string)
    ensures !StrLess(a, a)
  {
    if a != [] {
      StrLessIrreflexive(a[1..]);
    }
  }

  lemma {:induction false} StrLessTransitive(a: string, b: string, c: string)
    requires StrLess(a, b) && StrLess(b, c)
    ensures StrLess(a, c)
  {
    if a != [] && a[0] == b[0] && b[0] == c[0] {
      StrLessTransitive(a[1..], b[1..], c[1..]);
    }
  }

  /** Two different strings are ordered one way or the other. */
  lemma {:induction false} StrLessTotal(a: string, b: string)
    requires a != b
    ensures StrLess(a, b) || StrLess(b, a)
  {
    if a != [] && b != [] && a[0] == b[0] {
      assert a == [a[0]] + a[1..] && b == [b[0]] + b[1..];
      StrLessTotal(a[1..], b[1..]);
    }
  }

  /** `a[sortConfig.key]`: `None` for a missing field (`undefined`). */
  function Cell(row: Row, key: string): Option<Value>
  {
    if key in row then Some(row[key]) else None
  }

  /** `aValue < bValue` on two cells: strings by `StrLess`, integers by size;
      a missing field or a string against a number compares false either way. */
  predicate ValueLess(a: Option<Value>, b: Option<Value>)
  {
    match (a, b)
    case (Some(Str(x)), Some(Str(y))) => StrLess(x, y)
    case (Some(Num(x)), Some(Num(y))) => x < y
    case _ => false
  }

  lemma ValueLessStrict(a: Option<Value>, b: Option<Value>, c: Option<Value>)
    ensures !ValueLess(a, a)
    ensures ValueLess(a, b) && ValueLess(b, c) ==> ValueLess(a, c)
  {
    if a.Some? && a.value.Str? {
      StrLessIrreflexive(a.value.s);
      if ValueLess(a, b) && ValueLess(b, c) {
        StrLessTransitive(a.value.s, b.value.s, c.value.s);
      }
    }
  }

  /** The comparator read as "strictly before": with no key (or an empty key)
      it returns 0 throughout; otherwise `a` goes first when its cell is the
      smaller one (ascending) or the larger one (descending). */
  function RowBefore(config: SortConfig): (Row, Row) -> bool
  {
    (a: Row, b: Row) =>
      && config.key.Some? && config.key.value != ""
      && if config.direction == Ascending
         then ValueLess(Cell(a, config.key.value), Cell(b, config.key.value))
         else ValueLess(Cell(b, config.key.value), Cell(a, config.key.value))
  }

  lemma RowBeforeStrict(config: SortConfig, rows: seq<Row>)
    ensures StrictOrderOn(RowBefore(config), rows)
  {
    if config.key.Some? {
      var k := config.key.value;
      forall a, b, c | a in rows && b in rows && c in rows
        ensures !RowBefore(config)(a, a)
        ensures RowBefore(config)(a, b) && RowBefore(config)(b, c) ==> RowBefore(config)(a, c)
      {
        ValueLessStrict(Cell(a, k), Cell(b, k), Cell(c, k));
        ValueLessStrict(Cell(c, k), Cell(b, k), Cell(a, k));
      }
    }
  }

  /** `sortedData`: a stable sort of the rows by the comparator. */
  function SortRows(rows: seq<Row>, config: SortConfig): (r: seq<Row>)
    ensures |r| == |rows| && multiset(r) == multiset(rows)
    ensures config.key.None? || config.key == Some("") ==> r == rows
    ensures config.key.Some? && config.key.value != "" && config.direction == Ascending ==>
      forall i, j :: 0 <= i < j < |r| ==> !ValueLess(Cell(r[j], config.key.value), Cell(r[i], config.key.value))
    ensures config.key.Some? && config.key.value != "" && config.direction == Descending ==>
      forall i, j :: 0 <= i < j < |r| ==> !ValueLess(Cell(r[i], config.key.value), Cell(r[j], config.key.value))
  {
    RowBeforeStrict(config, rows);
    SortSorted(rows, RowBefore(config));
    SortedByKey(Sort(rows, RowBefore(config)), config);
    UnkeyedSortKeepsOrder(rows, config);
    Sort(rows, RowBefore(config))
  }

  /** Sorted by the comparator means ordered by the key's cells. */
  lemma SortedByKey(r: seq<Row>, config: SortConfig)
    requires SortedBy(RowBefore(config), r)
    ensures config.key.Some? && config.key.value != "" && config.direction == Ascending ==>
      forall i, j :: 0 <= i < j < |r| ==> !ValueLess(Cell(r[j], config.key.value), Cell(r[i], config.key.value))
    ensures config.key.Some? && config.key.value != "" && config.direction == Descending ==>
      forall i, j :: 0 <= i < j < |r| ==> !ValueLess(Cell(r[i], config.key.value), Cell(r[j], config.key.value))
  {
    forall i, j | 0 <= i < j < |r| ensures !RowBefore(config)(r[j], r[i]) {
    }
  }

  lemma UnkeyedSortKeepsOrder(rows: seq<Row>, config: SortConfig)
    ensures config.key.None? || config.key == Some("") ==> Sort(rows, RowBefore(config)) == rows
  {
    if config.key.None? || config.key == Some("") {
      SortUnrelatedIsIdentity(rows, RowBefore(config));
    }
  }

  /** On a column whose fields are all strings, the ascending sort orders
      them alphabetically: every cell is at most the next one. */
  lemma AscendingStringsAreOrdered(rows: seq<Row>, key: string, i: nat)
    requires key != ""
    requires forall row: Row :: row in rows ==> key in row && row[key].Str?
    requires i + 1 < |rows|
    ensures var r := SortRows(rows, SortConfig(Some(key), Ascending));
      && key in r[i] && key in r[i + 1] && r[i][key].Str? && r[i + 1][key].Str?
      && (r[i][key].s == r[i + 1][key].s || StrLess(r[i][key].s, r[i + 1][key].s))
  {
    var r := SortRows(rows, SortConfig(Some(key), Ascending));
    assert r[i] in multiset(rows) && r[i + 1] in multiset(rows);
    assert !ValueLess(Cell(r[i + 1], key), Cell(r[i], key));
    if r[i][key].s != r[i + 1][key].s {
      StrLessTotal(r[i][key].s, r[i + 1][key].s);
    }
  }

  /** `handleSort`: a click on the ascending sort column makes it descending;
      any other click sorts ascending on the clicked column. */
  function NextSort(config: SortConfig, columnId: string): (r: SortConfig)
    ensures r.key == Some(columnId)
    ensures r.direction == Descending <==> config.key == Some(columnId) && config.direction == Ascending
  {
    SortConfig(Some(columnId),
      if config.key == Some(columnId) && config.direction == Ascending then Descending else Ascending)
  }

  /** Clicking the same header again and again alternates the direction. */
  lemma SortAlternates(config: SortConfig, columnId: string)
    ensures NextSort(NextSort(config, columnId), columnId).direction != NextSort(config, columnId).direction
    ensures NextSort(NextSort(NextSort(config, columnId), columnId), columnId) == NextSort(config, columnId)
  {
  }

  // ---------------------------------------------------------------------
  // The table body

  /** A drawn row: its 1-based number (detail page) and its cells in the visible columns. */
  datatype DisplayedRow = DisplayedRow(number: nat, cells: seq<Option<Value>>)

  /** The rows as drawn: numbered `index + 1` in the sorted list, one cell per visible column. */
  function TableBody(rows: seq<Row>, visible: seq<Column>): (r: seq<DisplayedRow>)
    ensures |r| == |rows|
    ensures forall i :: 0 <= i < |r| ==> r[i].number == i + 1 && |r[i].cells| == |visible|
    ensures forall i, j :: 0 <= i < |r| && 0 <= j < |visible| ==> r[i].cells[j] == Cell(rows[i], visible[j].id)
  {
    seq(|rows|, i requires 0 <= i < |rows| =>
      DisplayedRow(i + 1, seq(|visible|, j requires 0 <= j < |visible| => Cell(rows[i], visible[j].id))))
  }

  /** The row numbers are 1, 2, ... whatever the sort, so they never repeat. */
  lemma RowNumbersDistinct(rows: seq<Row>, visible: seq<Column>)
    ensures forall i, j :: 0 <= i < j < |rows| ==> TableBody(rows, visible)[i].number < TableBody(rows, visible)[j].number
    ensures |rows| > 0 ==> TableBody(rows, visible)[|rows| - 1].number == |rows|
  {
  }

  // ---------------------------------------------------------------------
  // The page state

  /** The body of the drop handler once both indices are found: the source
      column spliced out and back in at the target index, then the orders
      renumbered by a loop. */
  method SpliceAndRenumber(ordered: seq<Column>, s: nat, t: nat) returns (updated: seq<Column>)
    requires s < |ordered| && t < |ordered|
    ensures updated == Renumber(Move(ordered, s, t))
  {
    var orderedColumns := ordered;
    // remove the source column, then insert it at the target position
    var removed := orderedColumns[s];
    orderedColumns := orderedColumns[..s] + orderedColumns[s + 1..];
    orderedColumns := orderedColumns[..t] + [removed] + orderedColumns[t..];
    assert orderedColumns == Move(ordered, s, t);
    // update the order values
    updated := [];
    for i := 0 to |orderedColumns|
      invariant |updated| == i
      invariant forall k :: 0 <= k < i ==> updated[k] == orderedColumns[k].(order := k)
    {
      updated := updated + [orderedColumns[i].(order := i)];
    }
  }

  /** `!draggedColumn` is false: a column is being dragged (an empty id is falsy). */
  predicate Dragging(dragged: Option<string>)
  {
    dragged.Some? && dragged.value != ""
  }

  /** The state of a table page. */
  class TablePage {
    var rows: seq<Row>
    var columns: seq<Column>
    var searchTerm: string
    var sortConfig: SortConfig
    var draggedColumn: Option<string>
    var dragOverColumn: Option<string>

    constructor (initialColumns: seq<Column>)
      ensures rows == [] && columns == initialColumns && searchTerm == "" && sortConfig == INITIAL_SORT
      ensures draggedColumn == None && dragOverColumn == None
    {
      rows := [];
      columns := initialColumns;
      searchTerm := "";
      sortConfig := INITIAL_SORT;
      draggedColumn := None;
      dragOverColumn := None;
    }

    method ToggleColumnVisibility(columnId: string)
      modifies this
      ensures columns == ToggleVisibility(old(columns), columnId)
      ensures rows == old(rows) && searchTerm == old(searchTerm) && sortConfig == old(sortConfig)
      ensures draggedColumn == old(draggedColumn) && dragOverColumn == old(dragOverColumn)
    {
      columns := ToggleVisibility(columns, columnId);
    }

    method HandleDragStart(columnId: string)
      modifies this
      ensures draggedColumn == Some(columnId)
      ensures rows == old(rows) && columns == old(columns) && searchTerm == old(searchTerm)
      ensures sortConfig == old(sortConfig) && dragOverColumn == old(dragOverColumn)
    {
      draggedColumn := Some(columnId);
    }

    /** The hovered column is recorded unless it is the dragged one. */
    method HandleDragOver(columnId: string)
      modifies this
      ensures dragOverColumn == if old(draggedColumn) != Some(columnId) then Some(columnId) else old(dragOverColumn)
      ensures rows == old(rows) && columns == old(columns) && searchTerm == old(searchTerm)
      ensures sortConfig == old(sortConfig) && draggedColumn == old(draggedColumn)
    {
      if draggedColumn != Some(columnId) {
        dragOverColumn := Some(columnId);
      }
    }

    /** `handleDrop`: a drop with nothing dragged or onto the dragged column
        only clears the drag state; a drop naming a missing column changes
        nothing at all; any other drop reorders the columns and clears the
        drag state. */
    method HandleDrop(targetColumnId: string)
      modifies this
      ensures !Dragging(old(draggedColumn)) || old(draggedColumn) == Some(targetColumnId) ==>
        columns == old(columns) && draggedColumn == None && dragOverColumn == None
      ensures Dragging(old(draggedColumn)) && old(draggedColumn) != Some(targetColumnId) ==>
        var reordered := Reorder(old(columns), old(draggedColumn).value, targetColumnId);
        && (reordered.None? ==>
              columns == old(columns) && draggedColumn == old(draggedColumn) && dragOverColumn == old(dragOverColumn))
        && (reordered.Some? ==>
              columns == reordered.value && draggedColumn == None && dragOverColumn == None)
      ensures rows == old(rows) && searchTerm == old(searchTerm) && sortConfig == old(sortConfig)
    {
      if !Dragging(draggedColumn) || draggedColumn == Some(targetColumnId) {
        draggedColumn := None;
        dragOverColumn := None;
        return;
      }
      var dragged := draggedColumn.value;
      var orderedColumns := ByOrder(columns);
      var sourceIndex := ColumnIndex(orderedColumns, dragged);
      var targetIndex := ColumnIndex(orderedColumns, targetColumnId);
      ReorderSteps(columns, dragged, targetColumnId);
      if sourceIndex.None? || targetIndex.None? {
        assert Reorder(columns, dragged, targetColumnId).None?;
        return;
      }
      var updatedColumns := SpliceAndRenumber(orderedColumns, sourceIndex.value, targetIndex.value);
      assert Reorder(columns, dragged, targetColumnId) == Some(updatedColumns);
      columns := updatedColumns;
      draggedColumn := None;
      dragOverColumn := None;
    }

    method HandleDragEnd()
      modifies this
      ensures draggedColumn == None && dragOverColumn == None
      ensures rows == old(rows) && columns == old(columns) && searchTerm == old(searchTerm) && sortConfig == old(sortConfig)
    {
      draggedColumn := None;
      dragOverColumn := None;
    }

    method HandleSort(columnId: string)
      modifies this
      ensures sortConfig == NextSort(old(sortConfig), columnId)
      ensures rows == old(rows) && columns == old(columns) && searchTerm == old(searchTerm)
      ensures draggedColumn == old(draggedColumn) && dragOverColumn == old(dragOverColumn)
    {
      sortConfig := NextSort(sortConfig, columnId);
    }

    method SetSearchTerm(term: string)
      modifies this
      ensures searchTerm == term
      ensures rows == old(rows) && columns == old(columns) && sortConfig == old(sortConfig)
      ensures draggedColumn == old(draggedColumn) && dragOverColumn == old(dragOverColumn)
    {
      searchTerm := term;
    }

    /** The rows arrive: the manage page's generated records or the detail page's logs. */
    method SetRows(data: seq<Row>)
      modifies this
      ensures rows == data
      ensures columns == old(columns) && searchTerm == old(searchTerm) && sortConfig == old(sortConfig)
      ensures draggedColumn == old(draggedColumn) && dragOverColumn == old(dragOverColumn)
    {
      rows := data;
    }

    /** `resetColumnConfig` and the detail page's column-setting effect: the
        columns become `defaults` (the manage page's initial columns, or the
        detail page's stored setting). */
    method SetColumns(defaults: seq<Column>)
      modifies this
      ensures columns == defaults
      ensures rows == old(rows) && searchTerm == old(searchTerm) && sortConfig == old(sortConfig)
      ensures draggedColumn == old(draggedColumn) && dragOverColumn == old(dragOverColumn)
    {
      columns := defaults;
    }

    /** The rows shown: filtered by the search term, then sorted. */
    function SortedData(): (r: seq<Row>)
      reads this
      ensures r == SortRows(FilterRows(rows, searchTerm), sortConfig)
      ensures multiset(r) == multiset(FilterRows(rows, searchTerm))
      ensures forall row :: row in r <==> row in rows && RowMatches(row, searchTerm)
      ensures sortConfig.key.Some? && sortConfig.key.value != "" && sortConfig.direction == Ascending ==>
        forall i, j :: 0 <= i < j < |r| ==> !ValueLess(Cell(r[j], sortConfig.key.value), Cell(r[i], sortConfig.key.value))
      ensures sortConfig.key.Some? && sortConfig.key.value != "" && sortConfig.direction == Descending ==>
        forall i, j :: 0 <= i < j < |r| ==> !ValueLess(Cell(r[i], sortConfig.key.value), Cell(r[j], sortConfig.key.value))
    {
      var filtered := FilterRows(rows, searchTerm);
      var sorted := SortRows(filtered, sortConfig);
      assert forall row :: row in sorted <==> row in multiset(sorted);
      assert forall row :: row in filtered <==> row in multiset(filtered);
      sorted
    }

    /** The header: the visible columns in display order. */
    function Visible(): (r: seq<Column>)
      reads this
      ensures r == VisibleColumns(columns)
      ensures forall c :: c in r <==> c in columns && c.visible
      ensures forall i, j :: 0 <= i < j < |r| ==> r[i].order <= r[j].order
    {
      VisibleColumns(columns)
    }
  }
}
