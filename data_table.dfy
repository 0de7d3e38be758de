// The composition rules of the generic table (src/common/data-table/DataTable.tsx):
// the border class chosen from thirteen flags, the checkbox column put in
// front of the caller's columns, the loading and empty row shapes, and the
// selection state with the list of selected ids handed to the caller. The
// table library itself (sorting, filtering, row models) is not modelled; its
// four state cells are kept as plain values that its callbacks replace.

module DataTable {
  import opened Wrappers

  // ---------------------------------------------------------------------------
  // Border classes

  datatype BorderFlags = BorderFlags(
    isBorderless: bool,
    isBorderBottomOnly: bool,
    isBorderTopOnly: bool,
    isBorderRightOnly: bool,
    isBorderLeftOnly: bool,
    isBorderTopRightOnly: bool,
    isBorderTopLeftOnly: bool,
    isBorderBottomRightOnly: bool,
    isBorderBottomLeftOnly: bool,
    isBorderTopRightBottomOnly: bool,
    isBorderTopLeftBottomOnly: bool,
    isBorderBottomRightLeftOnly: bool,
    isBorderBottomLeftRightOnly: bool)

  /** Every flag defaults to false. */
  const NoBorderFlags := BorderFlags(false, false, false, false, false, false, false, false, false, false, false, false, false)

  const DefaultBorderClass := "border border-gray-200"

  /** `getBorderClass`: the first set flag decides. */
  function BorderClass(f: BorderFlags): string
  {
    if f.isBorderless then "border-none"
    else if f.isBorderBottomOnly then "border-b border-gray-200"
    else if f.isBorderTopOnly then "border-t border-gray-200"
    else if f.isBorderRightOnly then "border-r border-gray-200"
    else if f.isBorderLeftOnly then "border-l border-gray-200"
    else if f.isBorderTopRightOnly then "border-t border-r border-gray-200"
    else if f.isBorderTopLeftOnly then "border-t border-l border-gray-200"
    else if f.isBorderBottomRightOnly then "border-b border-r border-gray-200"
    else if f.isBorderBottomLeftOnly then "border-b border-l border-gray-200"
    else if f.isBorderTopRightBottomOnly then "border-t border-r border-b border-gray-200"
    else if f.isBorderTopLeftBottomOnly then "border-t border-l border-b border-gray-200"
    else if f.isBorderBottomRightLeftOnly then "border-b border-r border-l border-gray-200"
    else if f.isBorderBottomLeftRightOnly then "border-b border-l border-r border-gray-200"
    else DefaultBorderClass
  }

  /** Flag k in the fixed precedence order. */
  predicate Flag(f: BorderFlags, k: nat)
    requires k < 13
  {
    if k == 0 then f.isBorderless
    else if k == 1 then f.isBorderBottomOnly
    else if k == 2 then f.isBorderTopOnly
    else if k == 3 then f.isBorderRightOnly
    else if k == 4 then f.isBorderLeftOnly
    else if k == 5 then f.isBorderTopRightOnly
    else if k == 6 then f.isBorderTopLeftOnly
    else if k == 7 then f.isBorderBottomRightOnly
    else if k == 8 then f.isBorderBottomLeftOnly
    else if k == 9 then f.isBorderTopRightBottomOnly
    else if k == 10 then f.isBorderTopLeftBottomOnly
    else if k == 11 then f.isBorderBottomRightLeftOnly
    else f.isBorderBottomLeftRightOnly
  }

  /** The class flag k stands for, in the same order. */
  function FlagClass(k: nat): string
    requires k < 13
  {
    if k == 0 then "border-none"
    else if k == 1 then "border-b border-gray-200"
    else if k == 2 then "border-t border-gray-200"
    else if k == 3 then "border-r border-gray-200"
    else if k == 4 then "border-l border-gray-200"
    else if k == 5 then "border-t border-r border-gray-200"
    else if k == 6 then "border-t border-l border-gray-200"
    else if k == 7 then "border-b border-r border-gray-200"
    else if k == 8 then "border-b border-l border-gray-200"
    else if k == 9 then "border-t border-r border-b border-gray-200"
    else if k == 10 then "border-t border-l border-b border-gray-200"
    else if k == 11 then "border-b border-r border-l border-gray-200"
    else "border-b border-l border-r border-gray-200"
  }

  /** The position of the first set flag at or after position k, if any. */
  function FirstSetFrom(f: BorderFlags, k: nat): (r: Option<nat>)
    requires k <= 13
    ensures r.Some? ==> k <= r.value < 13 && Flag(f, r.value) && forall j :: k <= j < r.value ==> !Flag(f, j)
    ensures r.None? ==> forall j :: k <= j < 13 ==> !Flag(f, j)
    decreases 13 - k
  {
    if k == 13 then None
    else if Flag(f, k) then Some(k)
    else FirstSetFrom(f, k + 1)
  }

  // ---------------------------------------------------------------------------
  // Columns

  /** What the table library is told about a column this component defines. */
  datatype ColumnSpec = ColumnSpec(id: string, enableSorting: bool, enableHiding: bool)

  /** The checkbox column: id "select", neither sortable nor hideable. */
  const CheckboxColumn := ColumnSpec("select", false, false)

  /** A column handed to the table: the checkbox column or one of the caller's. */
  datatype TableColumn<C> = Checkbox(spec: ColumnSpec) | Caller(def: C)

  function CallerColumns<C>(columns: seq<C>): (r: seq<TableColumn<C>>)
    ensures |r| == |columns| && forall k :: 0 <= k < |r| ==> r[k] == Caller(columns[k])
  {
    seq(|columns|, k requires 0 <= k < |columns| => Caller(columns[k]))
  }

  /** `checkedHidden ? columns : [checkboxColumn, ...columns]`. */
  function TableColumns<C>(checkedHidden: bool, columns: seq<C>): seq<TableColumn<C>>
  {
    if checkedHidden then CallerColumns(columns) else [Checkbox(CheckboxColumn)] + CallerColumns(columns)
  }

  // ---------------------------------------------------------------------------
  // Body rows

  datatype RowShape =
    | SkeletonRow(cells: nat)
    | DataRow(rowIndex: nat, cells: nat)
    | NoDataRow(colSpan: nat)

  /** The default of `limits`. */
  const DefaultLimits: int := 5

  /** `Array.from({ length: n })` has max(n, 0) entries for an integer n. */
  function ArrayLength(n: int): nat
  {
    if n < 0 then 0 else n
  }

  /** The body: `limits` skeleton rows of `columns.length + 1` cells while
      loading; otherwise one row per data row, or one "No Data Available" row
      spanning `columns.length + 1` cells. `columnCount` is the caller's column
      count; `tableColumnCount` the columns handed to the table, whose cells
      every data row renders. */
  function Body(loading: bool, limits: int, rowCount: nat, columnCount: nat, tableColumnCount: nat): seq<RowShape>
  {
    if loading then seq(ArrayLength(limits), _ => SkeletonRow(columnCount + 1))
    else if rowCount > 0 then seq(rowCount, i requires 0 <= i < rowCount => DataRow(i, tableColumnCount))
    else [NoDataRow(columnCount + 1)]
  }

  // ---------------------------------------------------------------------------
  // Selection

  /** A row, seen through its fields. */
  type Row<V> = map<string, V>

  /** `(row.original as any)[idField]`: undefined when the row lacks the field. */
  function IdOf<V>(row: Row<V>, idField: string): Option<V>
  {
    if idField in row then Some(row[idField]) else None
  }

  /** The ids of the selected rows, in data order. Row `i`'s key in the
      selection state is its index; keys beyond the current rows are ignored. */
  function SelectedIds<V>(rows: seq<Row<V>>, selection: set<nat>, idField: string): (ids: seq<Option<V>>)
    ensures |ids| <= |rows|
  {
    if rows == [] then []
    else
      var earlier := SelectedIds(rows[..|rows| - 1], selection, idField);
      if |rows| - 1 in selection then earlier + [IdOf(rows[|rows| - 1], idField)] else earlier
  }

  /** The rows of the page, that is every current row. */
  function PageRows(rowCount: nat): (r: set<nat>)
    ensures forall i: nat :: i in r <==> i < rowCount
  {
    if rowCount == 0 then {} else PageRows(rowCount - 1) + {rowCount - 1}
  }

  /** The header checkbox is checked when there are rows and all are selected. */
  predicate AllPageRowsSelected(rowCount: nat, selection: set<nat>)
  {
    rowCount > 0 && forall i: nat :: i < rowCount ==> i in selection
  }

  /** `toggleAllPageRowsSelected(value)`: every page row takes `value`. */
  function SetAllPageRows(rowCount: nat, selection: set<nat>, value: bool): set<nat>
  {
    if value then selection + PageRows(rowCount) else selection - PageRows(rowCount)
  }

  /** A click on the header checkbox sets every row to the negation of its
      checked state. */
  function HeaderClicked(rowCount: nat, selection: set<nat>): set<nat>
  {
    SetAllPageRows(rowCount, selection, !AllPageRowsSelected(rowCount, selection))
  }

  /** `row.toggleSelected(value)`: only that row's membership changes. */
  function SetRow(selection: set<nat>, i: nat, value: bool): set<nat>
  {
    if value then selection + {i} else selection - {i}
  }

  class DataTableState<V> {
    // props; `data` can be replaced by the parent
    var rows: seq<Row<V>>
    const columnCount: nat
    const idField: string
    const checkedHidden: bool
    const checkDisabled: bool
    const hasOnSelectionChange: bool
    // the four state cells
    var sorting: seq<(string, bool)>
    var columnFilters: seq<(string, string)>
    var columnVisibility: map<string, bool>
    var rowSelection: set<nat>
    // every id list handed to `onSelectionChange`, in call order
    var notifications: seq<seq<Option<V>>>

    /** Mount: all four cells empty (the `initialState` sorting is shadowed by
        the controlled, empty `sorting` cell), and the selection effect's first
        run reports the empty selection. */
    constructor (rows: seq<Row<V>>, columnCount: nat, idField: string, checkedHidden: bool,
                 checkDisabled: bool, hasOnSelectionChange: bool)
      ensures this.rows == rows && this.columnCount == columnCount && this.idField == idField
      ensures this.checkedHidden == checkedHidden && this.checkDisabled == checkDisabled
      ensures this.hasOnSelectionChange == hasOnSelectionChange
      ensures sorting == [] && columnFilters == [] && columnVisibility == map[] && rowSelection == {}
      ensures notifications == if hasOnSelectionChange && !checkedHidden then [[]] else []
    {
      this.rows := rows;
      this.columnCount := columnCount;
      this.idField := idField;
      this.checkedHidden := checkedHidden;
      this.checkDisabled := checkDisabled;
      this.hasOnSelectionChange := hasOnSelectionChange;
      sorting := [];
      columnFilters := [];
      columnVisibility := map[];
      rowSelection := {};
      notifications := [];
      new;
      SelectedIdsNone(rows, idField);
      SelectionEffect();
    }

    /** The effect that runs after every change of `rowSelection`. */
    method SelectionEffect()
      modifies this`notifications
      ensures notifications == old(notifications) +
        (if hasOnSelectionChange && !checkedHidden then [SelectedIds(rows, rowSelection, idField)] else [])
    {
      if hasOnSelectionChange && !checkedHidden {
        var selectedIds := SelectedIds(rows, rowSelection, idField);
        notifications := notifications + [selectedIds];
      }
    }

    /** A row checkbox (rendered only with the checkbox column) is set to
        `value`; a disabled checkbox does nothing. Setting a row to the
        state it already has hands back the same selection object, so
        nothing re-renders and the effect does not run. */
    method RowCheckboxChanged(i: nat, value: bool)
      requires !checkedHidden && i < |rows|
      modifies this`rowSelection, this`notifications
      ensures rowSelection == if checkDisabled then old(rowSelection) else SetRow(old(rowSelection), i, value)
      ensures notifications == old(notifications) +
        (if checkDisabled || value == (i in old(rowSelection)) || !hasOnSelectionChange then []
         else [SelectedIds(rows, rowSelection, idField)])
    {
      if !checkDisabled && value != (i in rowSelection) {
        rowSelection := SetRow(rowSelection, i, value);
        SelectionEffect();
      }
    }

    /** The parent passes new `data` (another page of a server-driven
        table). The selection effect does not depend on the data, so it
        does not run, and the selection keeps its index keys. */
    method DataChanged(newRows: seq<Row<V>>)
      modifies this`rows
      ensures rows == newRows
      ensures rowSelection == old(rowSelection) && notifications == old(notifications)
    {
      rows := newRows;
    }

    /** The header checkbox is clicked. */
    method HeaderCheckboxClicked()
      requires !checkedHidden
      modifies this`rowSelection, this`notifications
      ensures rowSelection == if checkDisabled then old(rowSelection) else HeaderClicked(|rows|, old(rowSelection))
      ensures notifications == old(notifications) +
        (if checkDisabled || !hasOnSelectionChange then [] else [SelectedIds(rows, rowSelection, idField)])
    {
      if !checkDisabled {
        rowSelection := SetAllPageRows(|rows|, rowSelection, !AllPageRowsSelected(|rows|, rowSelection));
        SelectionEffect();
      }
    }

    /** The library's `onSortingChange`, `onColumnFiltersChange` and
        `onColumnVisibilityChange` each replace their own cell. */
    method SortingChanged(s: seq<(string, bool)>)
      modifies this`sorting
      ensures sorting == s
    {
      sorting := s;
    }

    method ColumnFiltersChanged(f: seq<(string, string)>)
      modifies this`columnFilters
      ensures columnFilters == f
    {
      columnFilters := f;
    }

    method ColumnVisibilityChanged(v: map<string, bool>)
      modifies this`columnVisibility
      ensures columnVisibility == v
    {
      columnVisibility := v;
    }
  }

  // ---------------------------------------------------------------------------
  // Properties

  /** The class is the one of the first set flag in the fixed order, and the
      default when none is set. */
  lemma BorderClassIsFirstSetFlag(f: BorderFlags)
    ensures BorderClass(f) == match FirstSetFrom(f, 0) {
      case Some(i) => FlagClass(i)
      case None => DefaultBorderClass
    }
  {
    if f.isBorderless || f.isBorderBottomOnly || f.isBorderTopOnly || f.isBorderRightOnly ||
       f.isBorderLeftOnly || f.isBorderTopRightOnly || f.isBorderTopLeftOnly {
      var i := if f.isBorderless then 0 else if f.isBorderBottomOnly then 1
        else if f.isBorderTopOnly then 2 else if f.isBorderRightOnly then 3
        else if f.isBorderLeftOnly then 4 else if f.isBorderTopRightOnly then 5 else 6;
      FirstSetAt(f, i);
    } else if f.isBorderBottomRightOnly || f.isBorderBottomLeftOnly || f.isBorderTopRightBottomOnly ||
       f.isBorderTopLeftBottomOnly || f.isBorderBottomRightLeftOnly || f.isBorderBottomLeftRightOnly {
      var i := if f.isBorderBottomRightOnly then 7 else if f.isBorderBottomLeftOnly then 8
        else if f.isBorderTopRightBottomOnly then 9 else if f.isBorderTopLeftBottomOnly then 10
        else if f.isBorderBottomRightLeftOnly then 11 else 12;
      FirstSetAt(f, i);
    } else {
      assert forall j :: 0 <= j < 13 ==> !Flag(f, j);
    }
  }

  lemma FirstSetAt(f: BorderFlags, i: nat)
    requires i < 13 && Flag(f, i) && forall j :: 0 <= j < i ==> !Flag(f, j)
    ensures FirstSetFrom(f, 0) == Some(i)
  {
  }

  /** `isBorderless` wins over every other flag; no flag gives the full border. */
  lemma BorderlessWins(f: BorderFlags)
    ensures f.isBorderless ==> BorderClass(f) == "border-none"
    ensures BorderClass(NoBorderFlags) == DefaultBorderClass
  {
  }

  /** Setting a later flag in addition to an earlier one never changes the
      class: precedence goes to the earlier flag. */
  lemma EarlierFlagDecides(f: BorderFlags, g: BorderFlags, i: nat)
    requires i < 13 && Flag(f, i) && Flag(g, i)
    requires forall k :: 0 <= k < i ==> Flag(f, k) == Flag(g, k)
    ensures BorderClass(f) == BorderClass(g)
  {
    BorderClassIsFirstSetFlag(f);
    BorderClassIsFirstSetFlag(g);
    SameFirstSetFlag(f, g, i, 0);
  }

  /** Two flag sets that agree up to a flag both set have the same first set
      flag from any earlier position on. */
  lemma {:induction false} SameFirstSetFlag(f: BorderFlags, g: BorderFlags, i: nat, k: nat)
    requires k <= i < 13 && Flag(f, i) && Flag(g, i)
    requires forall j :: k <= j < i ==> Flag(f, j) == Flag(g, j)
    ensures FirstSetFrom(f, k) == FirstSetFrom(g, k)
    decreases i - k
  {
    if k < i && !Flag(f, k) {
      SameFirstSetFlag(f, g, i, k + 1);
    }
  }

  /** The checkbox column comes first unless hidden, and the caller's columns
      follow unchanged and in order. */
  lemma TableColumnsShape<C>(checkedHidden: bool, columns: seq<C>)
    ensures var t := TableColumns(checkedHidden, columns);
      var off := if checkedHidden then 0 else 1;
      |t| == |columns| + off &&
      (!checkedHidden ==> t[0] == Checkbox(CheckboxColumn) && !t[0].spec.enableSorting && !t[0].spec.enableHiding) &&
      forall k :: 0 <= k < |columns| ==> t[k + off] == Caller(columns[k])
  {
    var c := CallerColumns(columns);
    if !checkedHidden {
      var t := [Checkbox(CheckboxColumn)] + c;
      assert forall k :: 0 <= k < |columns| ==> t[k + 1] == c[k];
    }
  }

  /** While loading: exactly `limits` rows of `columnCount + 1` skeleton cells,
      whatever the data; five with the default limit. */
  lemma LoadingSkeleton(limits: int, rowCount: nat, columnCount: nat, tableColumnCount: nat)
    requires limits >= 0
    ensures var b := Body(true, limits, rowCount, columnCount, tableColumnCount);
      |b| == limits && forall k :: 0 <= k < |b| ==> b[k] == SkeletonRow(columnCount + 1)
    ensures Body(true, limits, rowCount, columnCount, tableColumnCount) == Body(true, limits, 0, columnCount, 0)
    ensures |Body(true, DefaultLimits, rowCount, columnCount, tableColumnCount)| == 5
  {
  }

  /** Not loading and no rows: a single row whose cell spans every caller
      column plus one. With rows: one data row per row, in order. */
  lemma NotLoadingBody(rowCount: nat, columnCount: nat, tableColumnCount: nat, limits: int)
    ensures rowCount == 0 ==> Body(false, limits, rowCount, columnCount, tableColumnCount) == [NoDataRow(columnCount + 1)]
    ensures rowCount > 0 ==> var b := Body(false, limits, rowCount, columnCount, tableColumnCount);
      |b| == rowCount && forall i :: 0 <= i < rowCount ==> b[i] == DataRow(i, tableColumnCount)
  {
  }

  /** An id is in the reported list exactly when some current, selected row
      carries it. */
  lemma {:induction false} SelectedIdsMembership<V>(rows: seq<Row<V>>, selection: set<nat>, idField: string, id: Option<V>)
    ensures id in SelectedIds(rows, selection, idField) <==>
      exists i :: 0 <= i < |rows| && i in selection && IdOf(rows[i], idField) == id
  {
    if rows != [] {
      var init := rows[..|rows| - 1];
      SelectedIdsMembership(init, selection, idField, id);
      if exists i :: 0 <= i < |rows| && i in selection && IdOf(rows[i], idField) == id {
        var i :| 0 <= i < |rows| && i in selection && IdOf(rows[i], idField) == id;
        if i < |rows| - 1 {
          assert init[i] == rows[i];
        }
      }
      if id in SelectedIds(init, selection, idField) {
        var i :| 0 <= i < |init| && i in selection && IdOf(init[i], idField) == id;
        assert rows[i] == init[i];
      }
    }
  }

  /** The order of the report for any selection: listing the selected
      current row indices in increasing order as `ix`, the report is the id
      of row ix[0], then of row ix[1], and so on. */
  lemma {:induction false} SelectedIdsOrder<V>(rows: seq<Row<V>>, selection: set<nat>, idField: string, ix: seq<nat>)
    requires forall i, j :: 0 <= i < j < |ix| ==> ix[i] < ix[j]
    requires forall k :: 0 <= k < |ix| ==> ix[k] < |rows| && ix[k] in selection
    requires forall i: nat :: i < |rows| && i in selection ==> i in ix
    ensures var ids := SelectedIds(rows, selection, idField);
      |ids| == |ix| && forall k :: 0 <= k < |ix| ==> ids[k] == IdOf(rows[ix[k]], idField)
  {
    if rows != [] {
      var n := |rows| - 1;
      var init := rows[..n];
      var ids := SelectedIds(rows, selection, idField);
      var earlier := SelectedIds(init, selection, idField);
      if n in selection {
        var front := ix[..|ix| - 1];
        LastIndexIsLargest(ix, n);
        forall i: nat | i < |init| && i in selection ensures i in front {
          var p :| 0 <= p < |ix| && ix[p] == i;
          assert front[p] == i;
        }
        SelectedIdsOrder(init, selection, idField, front);
        assert ids == earlier + [IdOf(rows[n], idField)];
        forall k | 0 <= k < |ix| ensures ids[k] == IdOf(rows[ix[k]], idField) {
          if k < |front| {
            assert ids[k] == earlier[k] && init[front[k]] == rows[ix[k]];
          }
        }
      } else {
        forall k | 0 <= k < |ix| ensures ix[k] < |init| {
          assert ix[k] != n;
        }
        SelectedIdsOrder(init, selection, idField, ix);
        assert ids == earlier;
        forall k | 0 <= k < |ix| ensures ids[k] == IdOf(rows[ix[k]], idField) {
          assert init[ix[k]] == rows[ix[k]];
        }
      }
    } else {
      IncreasingBelowBound(ix, |rows|);
    }
  }

  /** In a strictly increasing list of indices up to n that contains n, n is
      the last entry and every other entry lies below it. */
  lemma LastIndexIsLargest(ix: seq<nat>, n: nat)
    requires forall i, j :: 0 <= i < j < |ix| ==> ix[i] < ix[j]
    requires forall k :: 0 <= k < |ix| ==> ix[k] <= n
    requires n in ix
    ensures ix[|ix| - 1] == n
    ensures forall k :: 0 <= k < |ix| - 1 ==> ix[k] < n
  {
    var p :| 0 <= p < |ix| && ix[p] == n;
    assert ix[p] <= ix[|ix| - 1];
  }

  /** A strictly increasing list of indices below m has at most m entries. */
  lemma {:induction false} IncreasingBelowBound(ix: seq<nat>, m: nat)
    requires forall i, j :: 0 <= i < j < |ix| ==> ix[i] < ix[j]
    requires forall k :: 0 <= k < |ix| ==> ix[k] < m
    ensures |ix| <= m
  {
    if ix != [] {
      var front := ix[..|ix| - 1];
      assert forall k :: 0 <= k < |front| ==> front[k] < ix[|ix| - 1];
      IncreasingBelowBound(front, ix[|ix| - 1]);
    }
  }

  /** A partial selection of rows 0 and 2 out of three reports their two ids
      in row order. */
  lemma SelectedIdsPartialExample(a: int, b: int, c: int)
    ensures var rows: seq<Row<int>> := [map["id" := a], map["id" := b], map["id" := c]];
      SelectedIds(rows, {0, 2}, "id") == [Some(a), Some(c)]
  {
    var rows: seq<Row<int>> := [map["id" := a], map["id" := b], map["id" := c]];
    SelectedIdsOrder(rows, {0, 2}, "id", [0, 2]);
  }

  /** The selection is keyed by index, not by id: after the data change,
      every kept key that indexes a new row reports that new row's id, and
      no id of the old rows is reported unless a selected new row carries
      it too. */
  lemma SelectionKeptAcrossData<V>(newRows: seq<Row<V>>, selection: set<nat>, idField: string, i: nat, id: Option<V>)
    ensures i in selection && i < |newRows| ==> IdOf(newRows[i], idField) in SelectedIds(newRows, selection, idField)
    ensures id in SelectedIds(newRows, selection, idField) ==>
      exists j :: 0 <= j < |newRows| && j in selection && IdOf(newRows[j], idField) == id
  {
    SelectedIdsMembership(newRows, selection, idField, IdOf(if i < |newRows| then newRows[i] else map[], idField));
    SelectedIdsMembership(newRows, selection, idField, id);
  }

  /** Row 0 of page 1 (id 1) is selected, then page 2 (ids 3 and 4)
      arrives: ticking row 1 reports ids 3 and 4, the new rows at the kept
      index and the ticked one; id 1 is gone without a report of its own. */
  lemma PageChangeExample()
    ensures var page1: seq<Row<int>> := [map["id" := 1], map["id" := 2]];
      SelectedIds(page1, {0}, "id") == [Some(1)]
    ensures var page2: seq<Row<int>> := [map["id" := 3], map["id" := 4]];
      SelectedIds(page2, SetRow({0}, 1, true), "id") == [Some(3), Some(4)]
  {
    var page1: seq<Row<int>> := [map["id" := 1], map["id" := 2]];
    SelectedIdsOrder(page1, {0}, "id", [0]);
    var page2: seq<Row<int>> := [map["id" := 3], map["id" := 4]];
    assert SetRow({0}, 1, true) == {0, 1};
    SelectedIdsOrder(page2, {0, 1}, "id", [0, 1]);
  }

  /** With every row selected the list is every row's id in order; with none
      selected it is empty. */
  lemma {:induction false} SelectedIdsAll<V>(rows: seq<Row<V>>, idField: string)
    ensures var ids := SelectedIds(rows, PageRows(|rows|), idField);
      |ids| == |rows| && forall i :: 0 <= i < |rows| ==> ids[i] == IdOf(rows[i], idField)
  {
    if rows != [] {
      var init := rows[..|rows| - 1];
      SelectedIdsAll(init, idField);
      SelectedIdsSubset(init, PageRows(|init|), PageRows(|rows|), idField);
      assert |rows| - 1 in PageRows(|rows|);
    }
  }

  /** Only selection keys of current rows matter. */
  lemma {:induction false} SelectedIdsSubset<V>(rows: seq<Row<V>>, a: set<nat>, b: set<nat>, idField: string)
    requires forall i :: 0 <= i < |rows| ==> (i in a <==> i in b)
    ensures SelectedIds(rows, a, idField) == SelectedIds(rows, b, idField)
  {
    if rows != [] {
      SelectedIdsSubset(rows[..|rows| - 1], a, b, idField);
    }
  }

  lemma {:induction false} SelectedIdsNone<V>(rows: seq<Row<V>>, idField: string)
    ensures SelectedIds(rows, {}, idField) == []
  {
    if rows != [] {
      SelectedIdsNone(rows[..|rows| - 1], idField);
    }
  }

  /** The header checkbox clicked twice restores a full selection, but clears
      a partial one: it is not an involution. */
  lemma HeaderClickedTwice(rowCount: nat, selection: set<nat>)
    requires rowCount > 0
    ensures AllPageRowsSelected(rowCount, selection) ==>
      HeaderClicked(rowCount, HeaderClicked(rowCount, selection)) == selection
    ensures !AllPageRowsSelected(rowCount, selection) ==>
      HeaderClicked(rowCount, HeaderClicked(rowCount, selection)) == selection - PageRows(rowCount)
  {
    var once := HeaderClicked(rowCount, selection);
    if AllPageRowsSelected(rowCount, selection) {
      assert !AllPageRowsSelected(rowCount, once) by {
        assert 0 !in once;
      }
      assert once + PageRows(rowCount) == selection;
    } else {
      assert AllPageRowsSelected(rowCount, once);
    }
  }

  /** The header checkbox is checked exactly when every row is selected, and a
      click always leaves every row with the same membership. */
  lemma HeaderClickUniform(rowCount: nat, selection: set<nat>)
    requires rowCount > 0
    ensures var after := HeaderClicked(rowCount, selection);
      (AllPageRowsSelected(rowCount, selection) ==> forall i: nat :: i < rowCount ==> i !in after) &&
      (!AllPageRowsSelected(rowCount, selection) ==> AllPageRowsSelected(rowCount, after))
  {
  }

  /** A row checkbox changes only its own row. */
  lemma SetRowOnlyThatRow(selection: set<nat>, i: nat, value: bool, j: nat)
    ensures j in SetRow(selection, i, value) <==> if j == i then value else j in selection
  {
  }
}
