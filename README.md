# Pharmacy dashboard: the logic behind the components

This project models in Dafny the small pieces of logic in the pharmacy
management dashboard. The rest of that React code base is presentation.
The modelled logic is:

- the two paging footers: the stand-alone `Pagination` bar and the footer of `EnhancedDataTable`;
- the composition rules of the generic `DataTable`: the border class, the checkbox column, the loading and empty rows, and the selection with its id notification;
- column inference from the first data row;
- the multi-select and the single-select (`AutoComplete`) form fields;
- the query-string and form-data serialisers, including `encodeURIComponent`;
- the cookie helpers over `document.cookie`;
- the sidebar of the dashboard layout;
- the theme hook;
- the confirmation dialog.

Each component that keeps state is a `class`. Its fields are the component's state cells. Its methods are the handlers, plus the effects that run after them, and each method's `ensures` gives the complete new state. Pure logic is written as functions. Each function has lemmas that state what the source promises: bounds, containment, no duplicates, order, round trips and precedence. Loops in the source stay loops and are proved against a function that specifies them: `getDisplayedPages`, `getPageNumbers`, `getCookie`, `removeAllCookies` and `appendFormData`.

One module per source file:

- `Pagination` (pagination.dfy);
- `EnhancedDataTable`;
- `DataTable`;
- `GenerateColumns`;
- `MultiSelect`;
- `AutoComplete`;
- `FormDataFlatten`;
- `QueryString`;
- `Cookies`;
- `DashboardLayout`;
- `Theme`;
- `ConfirmationModal`.

Four helper modules sit beside them:

- `Strings`: JavaScript's `split`, `join`, `trim`, `startsWith` and the decimal text of an integer;
- `JsValues`: the JavaScript values the serialisers see, `String(v)` and truthiness;
- `UriEncoding`: `encodeURIComponent`, following sections 2.1 and 2.3 of RFC 3986 and UTF-8;
- `Wrappers`: `Option`.

Behaviour of the code that a reader might not expect, which the model keeps:

- The header checkbox sets every row to "not all selected". Clicking it twice restores a full selection but clears a partial one (`DataTable.HeaderClickedTwice`). So a second click does not undo the first one when only some rows were selected.
- The selection is keyed by row index, as the table library does by default. It is not keyed by row id. When the parent passes new data, the selection keeps its index keys and nothing is reported; the next report names the new rows at those indices (`DataTable.PageChangeExample`). Keys of rows that no longer exist are ignored when the ids are reported.
- The stand-alone bar's window is not centred on the current page. Up to page 5 it shows pages 1–5. With 7 pages at page 3, pages 6 and 7 get no button and no "… last" button, so they are reachable only through Next (`Pagination.LastPageCanLackButton`).
- The two footers use different window thresholds (`EnhancedDataTable.WindowsDiffer`).

## Model

| member | source | states |
|---|---|---|
| `Pagination.PageCount` | src/common/Pagination.tsx:22-28 | the page count is at least 1; it is 1 when the data fit on one page; otherwise it is the smallest p with (p-1)·rows < data ≤ p·rows, that is the ceiling |
| `Pagination.PaginationBar.constructor` | src/common/Pagination.tsx:17-32 | after the mount effects the page count is `PageCount` of the data size and `limits`; the current page is `activePage`, rows per page is `limits`, nothing reported |
| `Pagination.PaginationBar.ReceiveProps` | src/common/Pagination.tsx:22-32 | after the effects settle, rows per page equals `limits`, the page count is `PageCount`, and the current page is kept and not clamped |
| `Pagination.PaginationBar.SetLimitHandler` | src/common/Pagination.tsx:34-42 | choosing index i makes page i+1 current; i+1 is reported to `getCurrentPage` and to `onPageChange` when each is given; nothing else changes |
| `Pagination.PaginationBar.GetDisplayedPages` | src/common/Pagination.tsx:44-63 | the loop builds exactly the reference window `Window` |
| `Pagination.PaginationBar.ClickPrev` | src/common/Pagination.tsx:88-90 | disabled exactly on page 1, where nothing changes; otherwise moves back one page, stays in range, and reports the new page to each callback given; data size, limit, rows per page and page count are unchanged |
| `Pagination.PaginationBar.ClickNext` | src/common/Pagination.tsx:120-122 | disabled exactly when there is at most one page or the current page is the last, where nothing changes; otherwise moves on one page, stays in range, and reports the new page to each callback given; data size, limit, rows per page and page count are unchanged |
| `Pagination.PaginationBar.ClickPageButton` | src/common/Pagination.tsx:96-118 | every rendered button (window, "1", last) moves to its own page, which lies in [1, numberOfPage], and reports that page to each callback given; data size, limit, rows per page and page count are unchanged |
| `Pagination.Window` | src/common/Pagination.tsx:44-63 | `getDisplayedPages` as a value; its properties are `SmallWindowIsAllPages`, `LargeWindowShape`, `WindowContainsCurrent`, `ButtonsInRange` and `LastPageCanLackButton` |
| `Pagination.SmallWindowIsAllPages` | src/common/Pagination.tsx:48-51 | with at most five pages the window is 1..numberOfPage in order |
| `Pagination.LargeWindowShape` | src/common/Pagination.tsx:52-60 | with more than five pages the window is five consecutive pages inside [1, numberOfPage] |
| `Pagination.WindowContainsCurrent` | src/common/Pagination.tsx:52-60 | a current page in range is in the window |
| `Pagination.ButtonsInRange` | src/common/Pagination.tsx:96-118 | all numbered buttons, separate ones included, are strictly increasing (no duplicates) and within [1, numberOfPage] |
| `Pagination.SeparateButtonsNotInWindow` | src/common/Pagination.tsx:96-118 | the separate "1" and last buttons never repeat a window page |
| `Pagination.TwelvePagesAtSeven` | src/common/Pagination.tsx:52-60 | 12 pages at page 7: window 5..9 plus the separate 1 and 12 |
| `Pagination.LastPageCanLackButton` | src/common/Pagination.tsx:113-118 | 7 pages at page 3: no button for pages 6 and 7 |
| `Pagination.RangeLabelBounds` | src/common/Pagination.tsx:65-66 | with data and a page in range, 1 ≤ start ≤ end ≤ total and the range is shorter than a page |
| `Pagination.EmptyRangeLabel` | src/common/Pagination.tsx:65-66 | with no data the label is 0-0 |
| `Pagination.TwentyThreeRowsExample` | src/common/Pagination.tsx:22-28 | 23 rows at 10 per page give 3 pages, and page 2 shows rows 11–20; 0 rows give 1 page |
| `Pagination.NavigationStaysInRange` | src/common/Pagination.tsx:88-122 | Prev and Next are disabled exactly when their move would leave [1, numberOfPage] |
| `EnhancedDataTable.GetPageNumbers` | src/common/data-table/EnhancedDataTable.tsx:73-101 | the three loops of the source, one per case, are one loop here over that case's bounds; it builds exactly the reference list `PageNumbers` |
| `EnhancedDataTable.HandlePrevious` | src/common/data-table/EnhancedDataTable.tsx:61-65 | emits currentPage-1 if and only if currentPage > 1 |
| `EnhancedDataTable.HandleNext` | src/common/data-table/EnhancedDataTable.tsx:67-71 | emits currentPage+1 if and only if there is a descriptor and currentPage < totalPages |
| `EnhancedDataTable.HandlePageChange` | src/common/data-table/EnhancedDataTable.tsx:57-59 | forwards the page to `onPageChange`; `EmittedPagesInRange` shows every page it is handed from a button lies in [1, totalPages] |
| `EnhancedDataTable.ShowingSummary` | src/common/data-table/EnhancedDataTable.tsx:154-156 | the "Showing X to Y of Z" numbers; `SummaryBounds` gives 1 ≤ X ≤ Y ≤ Z and Y − X < limit |
| `EnhancedDataTable.NoDescriptorNoPages` | src/common/data-table/EnhancedDataTable.tsx:74 | no descriptor, no page numbers |
| `EnhancedDataTable.SmallPageList` | src/common/data-table/EnhancedDataTable.tsx:80-83 | with at most five pages the list is 1..totalPages |
| `EnhancedDataTable.LargePageList` | src/common/data-table/EnhancedDataTable.tsx:84-98 | with more than five pages the list is five consecutive pages in [1, totalPages] that contain a current page in range |
| `EnhancedDataTable.PageListInRange` | src/common/data-table/EnhancedDataTable.tsx:73-101 | the page numbers are strictly increasing and within [1, totalPages] |
| `EnhancedDataTable.EmittedPagesInRange` | src/common/data-table/EnhancedDataTable.tsx:57-71 | every page a button emits lies in [1, totalPages], and a disabled Previous or Next emits nothing |
| `EnhancedDataTable.SummaryBounds` | src/common/data-table/EnhancedDataTable.tsx:151-156 | for a consistent descriptor, "Showing X to Y of Z" has 1 ≤ X ≤ Y ≤ Z and Y-X < limit |
| `EnhancedDataTable.WindowsDiffer` | src/common/data-table/EnhancedDataTable.tsx:85-92 | at page 4 of 12 this footer shows 2..6 where the stand-alone bar shows 1..5 |
| `DataTable.BorderClass` | src/common/data-table/DataTable.tsx:52-67 | `getBorderClass`; `BorderClassIsFirstSetFlag`, `BorderlessWins`, `EarlierFlagDecides` and `SameFirstSetFlag` state that the first set flag in source order decides |
| `DataTable.FirstSetFrom` | src/common/data-table/DataTable.tsx:52-67 | finds the first set flag at or after k, or reports that none is set |
| `DataTable.BorderClassIsFirstSetFlag` | src/common/data-table/DataTable.tsx:52-67 | the class is that of the first set flag in the fixed order, and the full border when no flag is set |
| `DataTable.FirstSetAt` | src/common/data-table/DataTable.tsx:52-67 | a set flag with no earlier set flag is the first |
| `DataTable.BorderlessWins` | src/common/data-table/DataTable.tsx:53 | `isBorderless` gives "border-none" whatever else is set; no flags give "border border-gray-200" |
| `DataTable.EarlierFlagDecides` | src/common/data-table/DataTable.tsx:52-67 | flags set after the first set flag never change the class |
| `DataTable.SameFirstSetFlag` | src/common/data-table/DataTable.tsx:52-67 | two flag sets that agree up to a flag both set have the same first set flag |
| `DataTable.TableColumnsShape` | src/common/data-table/DataTable.tsx:100-110 | the "select" column comes first unless `checkedHidden` and is neither sortable nor hideable; the caller's columns follow in order |
| `DataTable.LoadingSkeleton` | src/common/data-table/DataTable.tsx:141-190 | while loading there are exactly `limits` rows (5 by default) of columns+1 skeleton cells, whatever the data |
| `DataTable.NotLoadingBody` | src/common/data-table/DataTable.tsx:243-326 | not loading with no rows gives one "No Data Available" row spanning columns+1; otherwise one row per data row, in data order (the order of the table's row model when no sorting is applied) |
| `DataTable.SelectedIdsMembership` | src/common/data-table/DataTable.tsx:134-139 | an id is reported if and only if a current, selected row carries it |
| `DataTable.SelectedIdsOrder` | src/common/data-table/DataTable.tsx:134-139 | for any selection, the report is the ids of the selected current rows in increasing row order, one per row |
| `DataTable.SelectedIdsPartialExample` | src/common/data-table/DataTable.tsx:134-139 | selecting rows 0 and 2 of three reports their two ids, row 0 first |
| `DataTable.IncreasingBelowBound` | src/common/data-table/DataTable.tsx:134-139 | a strictly increasing list of row indices below m has at most m entries, so the report is never longer than the rows |
| `DataTable.SelectedIdsAll` | src/common/data-table/DataTable.tsx:136 | with every row selected, every row's id is reported in row order |
| `DataTable.SelectedIdsSubset` | src/common/data-table/DataTable.tsx:136 | selection keys beyond the current rows do not affect the report |
| `DataTable.SelectedIdsNone` | src/common/data-table/DataTable.tsx:136 | an empty selection reports an empty list |
| `DataTable.PageRows` | src/common/data-table/DataTable.tsx:102 | the page's rows are exactly the indices below the row count |
| `DataTable.DataTableState.constructor` | src/common/data-table/DataTable.tsx:94-139 | the four state cells start empty, and the first effect run reports [] when a callback is given and the checkbox column is shown |
| `DataTable.DataTableState.SelectionEffect` | src/common/data-table/DataTable.tsx:134-139 | reports `SelectedIds` only when `onSelectionChange` is given and the checkbox column is shown |
| `DataTable.DataTableState.RowCheckboxChanged` | src/common/data-table/DataTable.tsx:103 | a row checkbox sets only its own row and then reports; setting a row to the state it has, or a disabled checkbox, changes nothing and reports nothing |
| `DataTable.DataTableState.DataChanged` | src/common/data-table/DataTable.tsx:108-139 | new data replace the rows; the selection keeps its index keys and nothing is reported, since the effect does not depend on the data |
| `DataTable.DataTableState.HeaderCheckboxClicked` | src/common/data-table/DataTable.tsx:102 | a click clears every page row when all are selected and selects every page row otherwise, then reports; a disabled checkbox changes nothing |
| `DataTable.DataTableState.SortingChanged` | src/common/data-table/DataTable.tsx:111 | the library's sorting callback replaces the sorting cell |
| `DataTable.DataTableState.ColumnFiltersChanged` | src/common/data-table/DataTable.tsx:112 | the filter callback replaces the filter cell |
| `DataTable.DataTableState.ColumnVisibilityChanged` | src/common/data-table/DataTable.tsx:115 | the visibility callback replaces the visibility cell |
| `DataTable.HeaderClickedTwice` | src/common/data-table/DataTable.tsx:102 | two header clicks restore a full selection and clear a partial one |
| `DataTable.HeaderClickUniform` | src/common/data-table/DataTable.tsx:102 | a click on a fully selected page leaves no page row selected; a click on any other page selects every page row |
| `DataTable.SetRowOnlyThatRow` | src/common/data-table/DataTable.tsx:103 | a row checkbox changes only its own row |
| `DataTable.SelectionKeptAcrossData` | src/common/data-table/DataTable.tsx:134-139 | after new data arrive, every kept index key that indexes a new row reports that new row's id, and only ids of selected new rows are reported |
| `DataTable.PageChangeExample` | src/common/data-table/DataTable.tsx:134-139 | row 0 of page 1 (id 1) selected, then page 2 (ids 3, 4) arrives: ticking row 1 reports ids 3 and 4 |
| `GenerateColumns.GenerateColumnsFromData` | src/common/data-table/generate-columns.tsx:4-25 | the source function; `NoDataNoColumns`, `LaterRowsIgnored` and `ColumnKeysAreFirstRowKeys` give its columns |
| `GenerateColumns.Header` | src/common/data-table/generate-columns.tsx:13 | the header label of a key; `HeaderShape`, `HeaderIdempotent` and `HeaderExamples` describe it |
| `GenerateColumns.WithoutId` | src/common/data-table/generate-columns.tsx:10 | no kept key is "id", and nothing is added |
| `GenerateColumns.WithoutIdMembership` | src/common/data-table/generate-columns.tsx:10 | a key is kept if and only if it is in the input and is not exactly "id" |
| `GenerateColumns.Upper` | src/common/data-table/generate-columns.tsx:13 | upper-cases a–z and leaves every other character |
| `GenerateColumns.CellOf` | src/common/data-table/generate-columns.tsx:14-21 | a UI element is shown as it is, anything else as `String(value)` |
| `GenerateColumns.NoDataNoColumns` | src/common/data-table/generate-columns.tsx:7 | null or empty data gives no columns |
| `GenerateColumns.LaterRowsIgnored` | src/common/data-table/generate-columns.tsx:9 | rows after the first do not change the columns |
| `GenerateColumns.ColumnKeysAreFirstRowKeys` | src/common/data-table/generate-columns.tsx:9-13 | a key has a column if and only if it is a key of the first row other than "id"; each header is its key's label |
| `GenerateColumns.WithoutIdKeepsOrder` | src/common/data-table/generate-columns.tsx:10 | the key filter keeps the key order |
| `GenerateColumns.HeaderShape` | src/common/data-table/generate-columns.tsx:13 | the header has the key's length and no "_", and differs from the key only where it upper-cases a letter |
| `GenerateColumns.HeaderIdempotent` | src/common/data-table/generate-columns.tsx:13 | applying the label transform to a header changes nothing |
| `GenerateColumns.HeaderExamples` | src/common/data-table/generate-columns.tsx:13 | `unit_price` becomes "Unit Price" |
| `GenerateColumns.CellShowsValue` | src/common/data-table/generate-columns.tsx:14-21 | element cells, text cells, and "undefined" for a missing key |
| `MultiSelect.Toggled` | src/common/Formik/FormikMultiSelectOption.tsx:61-69 | the list `toggleOption` writes; `ToggleFlipsOnly`, `ToggleKeepsOthers`, `ToggleTwiceUnselected` and `ToggleTwiceSelected` describe it |
| `MultiSelect.DisplayText` | src/common/Formik/FormikMultiSelectOption.tsx:95-103 | the closed box's text; `DisplayTextShape` and `UnknownValueLabel` describe it |
| `MultiSelect.RemoveAll` | src/common/Formik/FormikMultiSelectOption.tsx:64-66 | removes every occurrence of the value and keeps every other value |
| `MultiSelect.MultiSelectState.constructor` | src/common/Formik/FormikMultiSelectOption.tsx:30-44 | closed; the selection is synced from the field value; `onSelect` gets [] and then the synced list |
| `MultiSelect.MultiSelectState.ToggleOption` | src/common/Formik/FormikMultiSelectOption.tsx:61-73 | the new list is `Toggled`, is written to the field and reported; the dropdown closes |
| `MultiSelect.MultiSelectState.ToggleDropdown` | src/common/Formik/FormikMultiSelectOption.tsx:75-77 | flips `dropdownOpen` |
| `MultiSelect.MultiSelectState.FieldValueChanged` | src/common/Formik/FormikMultiSelectOption.tsx:35-37 | the selection is reset from the field value, or to [] when the field is empty |
| `MultiSelect.ToggleFlipsOnly` | src/common/Formik/FormikMultiSelectOption.tsx:63-69 | a toggle flips the membership of the toggled value and of no other |
| `MultiSelect.RemoveAbsent` | src/common/Formik/FormikMultiSelectOption.tsx:64-66 | removing an absent value changes nothing |
| `MultiSelect.RemoveAppend` | src/common/Formik/FormikMultiSelectOption.tsx:64-66 | removal distributes over concatenation, so the order is kept |
| `MultiSelect.ToggleKeepsOthers` | src/common/Formik/FormikMultiSelectOption.tsx:63-69 | the other values keep their order and multiplicity |
| `MultiSelect.ToggleTwiceUnselected` | src/common/Formik/FormikMultiSelectOption.tsx:63-69 | toggling an unselected value twice restores the list |
| `MultiSelect.ToggleTwiceSelected` | src/common/Formik/FormikMultiSelectOption.tsx:63-69 | toggling a selected value twice moves it to the end |
| `MultiSelect.FromFieldCases` | src/common/Formik/FormikMultiSelectOption.tsx:36 | an absent field value reads as []; a present list is taken as it is |
| `MultiSelect.LabelOf` | src/common/Formik/FormikMultiSelectOption.tsx:99-100 | the label of the first option with the value, or "" when no option has it |
| `MultiSelect.DisplayTextShape` | src/common/Formik/FormikMultiSelectOption.tsx:95-103 | no selection shows "Select options"; one value shows its label; the text for a + b is the text for a, then ", ", then the text for b, so labels follow selection order |
| `MultiSelect.UnknownValueLabel` | src/common/Formik/FormikMultiSelectOption.tsx:99-102 | a value no option carries shows as "" |
| `AutoComplete.NextSelection` | src/common/Formik/AutoComplete.tsx:65 | choosing the selected value clears the selection; any other option becomes the selection |
| `AutoComplete.FindByText` | src/common/Formik/AutoComplete.tsx:47 | the first option whose value text equals the given text, or none if no option matches |
| `AutoComplete.FieldSync` | src/common/Formik/AutoComplete.tsx:44-55 | the field effect as a value; `FalsyFieldClears`, `TruthyFieldAdopts`, `NoMatchKeeps`, `FieldSyncByKey` and `SyncsAreIdempotent` describe it |
| `AutoComplete.SelectedValueSync` | src/common/Formik/AutoComplete.tsx:58-62 | the `selectedValue` effect as a value; `SyncsAreIdempotent` and `ControlledPropWins` describe it |
| `AutoComplete.TriggerLabel` | src/common/Formik/AutoComplete.tsx:87 | the trigger text; `TriggerShowsSelection` describes it |
| `AutoComplete.AutoCompleteState.constructor` | src/common/Formik/AutoComplete.tsx:28-62 | closed, untouched, nothing reported; the selection starts as `selectedValue` and is then the outcome of `Cascade` with both effects running on mount |
| `AutoComplete.AutoCompleteState.RunEffects` | src/common/Formik/AutoComplete.tsx:44-62 | the selection and the stopped flag are exactly `Cascade` of the commits the event starts |
| `AutoComplete.AutoCompleteState.HandleSelect` | src/common/Formik/AutoComplete.tsx:64-75 | the popover closes; in form mode the field is set to `NextSelection`'s value and marked touched and `onSelect` is not called; otherwise `onSelect` gets `NextSelection`; the selection is then the outcome of `Cascade` started from `NextSelection` |
| `AutoComplete.AutoCompleteState.FieldValueChanged` | src/common/Formik/AutoComplete.tsx:44-55 | a new field value re-runs the field effect first and the selection is the outcome of that cascade; an unchanged field value changes nothing |
| `AutoComplete.AutoCompleteState.SelectedValueChanged` | src/common/Formik/AutoComplete.tsx:58-62 | a new `selectedValue` re-runs its effect first and the selection is the outcome of that cascade; an unchanged prop changes nothing |
| `AutoComplete.AutoCompleteState.OptionsChanged` | src/common/Formik/AutoComplete.tsx:44-55 | new options re-run the field effect first, the only effect that depends on them, and the selection is the outcome of that cascade; unchanged options change nothing |
| `AutoComplete.AutoCompleteState.SetOpen` | src/common/Formik/AutoComplete.tsx:84 | the popover's own open/close request sets `open` |
| `AutoComplete.SelectTwiceClears` | src/common/Formik/AutoComplete.tsx:65 | choosing the same option twice clears the selection, unless it started selected |
| `AutoComplete.FalsyFieldClears` | src/common/Formik/AutoComplete.tsx:51-54 | in form mode a falsy field value (undefined, 0, "") clears the selection; outside form mode nothing changes |
| `AutoComplete.TruthyFieldAdopts` | src/common/Formik/AutoComplete.tsx:45-50 | a truthy field value adopts the first option with the same text form |
| `AutoComplete.NoMatchKeeps` | src/common/Formik/AutoComplete.tsx:47-50 | with no matching option the selection is unchanged |
| `AutoComplete.SyncsAreIdempotent` | src/common/Formik/AutoComplete.tsx:44-62 | each effect alone is idempotent: running it a second time on its own result changes nothing |
| `AutoComplete.FieldSyncByKey` | src/common/Formik/AutoComplete.tsx:44-55 | the field effect writes only to change `value?.value`, and whether and what it writes depends on the selection only through `value?.value` |
| `AutoComplete.RoundMovesKey` | src/common/Formik/AutoComplete.tsx:44-62 | a commit that changes the selection changes `value?.value`, the dependency that makes both effects run again |
| `AutoComplete.RoundSettlesOrCycles` | src/common/Formik/AutoComplete.tsx:44-62 | after one commit the effects stop at once, stop after one more commit, or swap two selections forever |
| `AutoComplete.NeverSettles` | src/common/Formik/AutoComplete.tsx:44-62 | two selections the effects swap never stop, however many commits follow |
| `AutoComplete.CascadeOutcome` | src/common/Formik/AutoComplete.tsx:44-62 | after every event the selection is either one a further commit leaves alone, or one of two the effects swap forever |
| `AutoComplete.SettlesWithoutSelectedValue` | src/common/Formik/AutoComplete.tsx:44-62 | without `selectedValue` the effects always stop, at the field effect's selection |
| `AutoComplete.ControlledPropWins` | src/common/Formik/AutoComplete.tsx:58-75 | outside form mode a given `selectedValue` overrides the pick at once and the effects stop there |
| `AutoComplete.FormSelectionSticks` | src/common/Formik/AutoComplete.tsx:44-75 | in form mode without `selectedValue`, picking the first option with a truthy value text keeps that pick after the effects |
| `AutoComplete.LoadedOptionAdopted` | src/common/Formik/AutoComplete.tsx:44-55 | in form mode without `selectedValue`, options that arrive after the field was set select the first option with the field's value text, and the effects stop there; with no options yet the selection stays |
| `AutoComplete.EffectsFightExample` | src/common/Formik/AutoComplete.tsx:44-62 | in form mode, `selectedValue` a with field value "b", or with an empty field, makes the two effects swap the selection forever |
| `AutoComplete.CorrectedCascadeSettles` | src/common/Formik/AutoComplete.tsx:44-62 | with the `selectedValue` effect keyed on the prop alone, the effects always stop at a selection the field effect accepts, and the fighting example keeps b |
| `AutoComplete.FormSelectionIsStable` | src/common/Formik/AutoComplete.tsx:64-70 | in form mode a truthy selection survives the field effect that follows it |
| `AutoComplete.FalsyOptionSelectionIsCleared` | src/common/Formik/AutoComplete.tsx:51-54 | in form mode, selecting an option whose value is 0 or "" is undone by the field effect |
| `AutoComplete.TriggerShowsSelection` | src/common/Formik/AutoComplete.tsx:87 | the trigger shows the selected label, or the placeholder when nothing is selected or the label is empty |
| `FormDataFlatten.Flatten` | src/common/libs/generate-form-data.ts:4-31 | the pairs `appendFormData` emits, as a value; `AppendFormData` is proved against it, and `LeafValues`, `KeysExtendKey`, `ItemKeysExtendKey`, `FieldKeysExtendKey`, `ArrayItems` and `ArrayNestedItem` describe it |
| `FormDataFlatten.FormData.constructor` | src/common/libs/generate-form-data.ts:2 | a new FormData is empty |
| `FormDataFlatten.FormData.Append` | src/common/libs/generate-form-data.ts:8 | `append` adds one pair at the end |
| `FormDataFlatten.AppendFormData` | src/common/libs/generate-form-data.ts:4-31 | appends exactly `Flatten(key, value)` to the buffer |
| `FormDataFlatten.GenerateFormData` | src/common/libs/generate-form-data.ts:1-40 | a fresh buffer holding the flattening of every top-level field in order |
| `FormDataFlatten.LeafValues` | src/common/libs/generate-form-data.ts:5-10 | null and undefined emit nothing; a date emits its ISO text; a file or blob is emitted as it is; a primitive emits one pair under its key |
| `FormDataFlatten.KeysExtendKey` | src/common/libs/generate-form-data.ts:4-31 | every emitted key is the key itself or the key followed by "[" |
| `FormDataFlatten.ItemKeysExtendKey` | src/common/libs/generate-form-data.ts:11-20 | array items go under `key[i]…` or `key[]` |
| `FormDataFlatten.FieldKeysExtendKey` | src/common/libs/generate-form-data.ts:21-27 | object fields go under `key[subKey]…` |
| `FormDataFlatten.DataInOrder` | src/common/libs/generate-form-data.ts:33-37 | the pairs of the top-level fields a + b are those of a followed by those of b |
| `FormDataFlatten.PrefixUnchanged` | src/common/libs/generate-form-data.ts:33-37 | later fields do not change the pairs of earlier ones |
| `FormDataFlatten.ArrayItems` | src/common/libs/generate-form-data.ts:11-20 | null items are dropped, an undefined item is sent as "undefined" under `key[]`, and primitives go under `key[]` |
| `FormDataFlatten.ArrayNestedItem` | src/common/libs/generate-form-data.ts:11-20 | an object item goes under `key[i]`, its fields under `key[i][field]` |
| `QueryString.GenerateQueryString` | src/common/libs/generate-query-string.ts:1-6 | the source function; `KeptMembership`, `KeptInOrder`, `NothingKeptIsEmpty`, `SplitRecoversPieces`, `PieceReadsBack` and `Example` describe it |
| `QueryString.KeptEntries` | src/common/libs/generate-query-string.ts:3 | every kept entry has a value that is neither null nor undefined, and nothing is added |
| `QueryString.KeptMembership` | src/common/libs/generate-query-string.ts:3 | an entry is kept if and only if it is in the input and its value is neither null nor undefined |
| `QueryString.KeptInOrder` | src/common/libs/generate-query-string.ts:3 | the filter keeps entry order |
| `QueryString.NothingKeptIsEmpty` | src/common/libs/generate-query-string.ts:2-5 | empty or all-null input gives "" |
| `QueryString.FalsyValuesKept` | src/common/libs/generate-query-string.ts:3-4 | "", 0 and false are kept, giving "k=", "k=0" and "k=false" |
| `QueryString.EncodedHasNoSeparators` | src/common/libs/generate-query-string.ts:4 | an encoded value never contains "&" or "=" |
| `QueryString.SplitRecoversPieces` | src/common/libs/generate-query-string.ts:4-5 | when no key contains "&", splitting the output on "&" gives back one piece per kept entry |
| `QueryString.PieceReadsBack` | src/common/libs/generate-query-string.ts:4 | the key is the text before the first "=", and the rest percent-decodes to the UTF-8 of the value's text |
| `QueryString.Example` | src/common/libs/generate-query-string.ts:2-5 | `{q: "a b", page: 2, empty: null}` gives "q=a%20b&page=2" |
| `UriEncoding.EncodeUriComponent` | src/common/libs/generate-query-string.ts:4 | the output is at least as long as the input and contains only unreserved characters, "%" and hex digits |
| `UriEncoding.Utf8` | src/common/libs/generate-query-string.ts:4 | a character encodes to one to four bytes, and an ASCII character to itself |
| `UriEncoding.DecodeEscapes` | src/common/libs/generate-query-string.ts:4 | percent-decoding the escapes of some bytes gives those bytes back |
| `UriEncoding.EncodeDecode` | src/common/libs/generate-query-string.ts:4 | percent-decoding the encoding gives the UTF-8 bytes of the text |
| `UriEncoding.EncodeIdentity` | src/common/libs/generate-query-string.ts:4 | the encoding leaves the text unchanged if and only if every character is unreserved |
| `UriEncoding.EncodeExamples` | src/common/libs/generate-query-string.ts:4 | " " → "%20", "a&b" → "a%26b", "é" → "%C3%A9" |
| `Cookies.Lookup` | src/common/libs/cookies.ts:16-30 | `getCookie` with a document, as a value; `GetCookie` is proved against it, and `FoundAt`, `ReadBack` and `PrefixMatching` describe it |
| `Cookies.FindCookie` | src/common/libs/cookies.ts:22-29 | the value after `name=` in the first trimmed segment that starts with it; none if no segment does |
| `Cookies.Deletions` | src/common/libs/cookies.ts:49-53 | one deletion per segment, naming its trimmed text before "=" |
| `Cookies.Document.constructor` | src/common/libs/cookies.ts:5 | a document, or none, with its cookie string |
| `Cookies.Document.GetCookie` | src/common/libs/cookies.ts:16-30 | the loop returns `Lookup`, or null without a document |
| `Cookies.Document.SetCookie` | src/common/libs/cookies.ts:4-11 | writes `name=value;expires=<UTC text of now + days·86400000>;path=/;SameSite=Lax`; nothing without a document |
| `Cookies.Document.DeleteCookie` | src/common/libs/cookies.ts:35-39 | writes `name=;expires=Thu, 01 Jan 1970 00:00:00 GMT;path=/;SameSite=Lax` |
| `Cookies.Document.RemoveAllCookies` | src/common/libs/cookies.ts:44-54 | makes one deletion per segment, in order |
| `Cookies.FoundAt` | src/common/libs/cookies.ts:22-26 | the lookup finds the first segment that matches |
| `Cookies.ReadBack` | src/common/libs/cookies.ts:19-26 | a segment `name=value` with no earlier match returns `value` unchanged |
| `Cookies.PrefixMatching` | src/common/libs/cookies.ts:24 | `id` is not found in "uid=5" but is found in "uid=5; id=7" |
| `Cookies.DeleteIsExpiredSet` | src/common/libs/cookies.ts:38 | deleting is setting the empty value with the epoch as expiry |
| `Cookies.AssignmentShape` | src/common/libs/cookies.ts:7-10 | the assignment starts with the `name=value` pair, and the expiry lies `days`·86400000 ms after now |
| `Cookies.RemoveAllNames` | src/common/libs/cookies.ts:47-53 | an empty cookie string makes one deletion; a jar of n pairs makes n deletions naming its cookies in order |
| `Cookies.TrimPadded` | src/common/libs/cookies.ts:23 | trimming removes leading spaces from a cookie pair |
| `DashboardLayout.IsGroupActive` | src/layouts/DashboardLayout.tsx:55-62 | `isGroupActive`; `TargetedActivity` and `GroupActivity` state both directions of each case |
| `DashboardLayout.SomeChildMatches` | src/layouts/DashboardLayout.tsx:60 | true if and only if the pathname starts with some child's target |
| `DashboardLayout.ToggleGroupIn` | src/layouts/DashboardLayout.tsx:64 | the key's flag becomes the negation of its old value (a missing entry counts as false); every other entry is unchanged |
| `DashboardLayout.Sidebar.constructor` | src/layouts/DashboardLayout.tsx:21-54 | starts expanded with no stored group flags |
| `DashboardLayout.Sidebar.ToggleCollapsed` | src/layouts/DashboardLayout.tsx:76 | flips `collapsed` |
| `DashboardLayout.Sidebar.ToggleGroup` | src/layouts/DashboardLayout.tsx:64 | the open-group map becomes `ToggleGroupIn` |
| `DashboardLayout.Sidebar.Navigate` | src/layouts/DashboardLayout.tsx:53 | the router's pathname changes and the sidebar state stays |
| `DashboardLayout.TargetedActivity` | src/layouts/DashboardLayout.tsx:56-59 | `/pharma` is active only on the exact path; any other target is active when it is a plain string prefix of the path |
| `DashboardLayout.GroupActivity` | src/layouts/DashboardLayout.tsx:60-61 | a group is active if and only if the path starts with a child's target; a row with neither target nor children is never active |
| `DashboardLayout.ActiveRowsExample` | src/layouts/DashboardLayout.tsx:32-61 | on /pharma/inventory/alerts only Inventory is active; Dashboard is active on /pharma |
| `DashboardLayout.PrefixIsPlainString` | src/layouts/DashboardLayout.tsx:58 | /pharma/analyticsX activates Analytics: a text prefix, not a path segment |
| `DashboardLayout.ToggleFlipsStored` | src/layouts/DashboardLayout.tsx:64-85 | a toggle flips the open state of a group that has a stored flag |
| `DashboardLayout.ToggleKeepsOthers` | src/layouts/DashboardLayout.tsx:64-85 | a toggle leaves every other group's open state |
| `DashboardLayout.FirstTogglesOfUntouchedGroup` | src/layouts/DashboardLayout.tsx:64-85 | the first toggle of an untouched group leaves it open (an active group stays open); the second closes it |
| `DashboardLayout.ToggleTwiceRestores` | src/layouts/DashboardLayout.tsx:64 | two toggles of a group that has a stored flag restore the map |
| `DashboardLayout.SettingsExample` | src/layouts/DashboardLayout.tsx:141 | Settings is active on /pharma/settings/profile and not on /pharma/analytics: it matches by path prefix |
| `Theme.ReadInitialTheme` | src/hooks/use-theme.ts:15-20 | `readInitialTheme`; `InitialThemeRules` and `InvalidStoredTextIgnored` describe it |
| `Theme.ModeOf` | src/hooks/use-theme.ts:18 | a stored value is a mode if and only if it is exactly "light" or "dark" |
| `Theme.Toggle` | src/hooks/use-theme.ts:44 | a toggle always changes the theme |
| `Theme.ThemeHook.constructor` | src/hooks/use-theme.ts:22-29 | the initial theme is `ReadInitialTheme`, then it is applied to the root and stored under "theme" |
| `Theme.ThemeHook.ApplyAndPersist` | src/hooks/use-theme.ts:24-29 | the root has "dark" if and only if the theme is dark, and storage "theme" holds the theme |
| `Theme.ThemeHook.SetThemeState` | src/hooks/use-theme.ts:22-29 | the theme becomes m; the effect runs only when the theme changed |
| `Theme.ThemeHook.SetTheme` | src/hooks/use-theme.ts:43 | the theme becomes exactly the given mode; a new mode is applied to the root and persisted; the current mode changes nothing; a persisted theme stays persisted |
| `Theme.ThemeHook.ToggleTheme` | src/hooks/use-theme.ts:44 | the theme becomes `Toggle` of the old one and is persisted |
| `Theme.ThemeHook.StorageReplaced` | src/hooks/use-theme.ts:34 | another party rewrites local storage |
| `Theme.ThemeHook.SystemChanged` | src/hooks/use-theme.ts:31-41 | the theme follows the system only when storage holds no valid mode; once persisted, system changes are ignored; when the theme stays, the root class stays too; storage and theme become `SystemStep`, the step `Replay` repeats |
| `Theme.StoredModeRoundTrip` | src/hooks/use-theme.ts:17-28 | a stored mode reads back as itself |
| `Theme.InitialThemeRules` | src/hooks/use-theme.ts:10-20 | light without a window; otherwise a valid stored mode wins; failing that, dark if and only if `matchMedia` exists and prefers dark |
| `Theme.InvalidStoredTextIgnored` | src/hooks/use-theme.ts:18-19 | a stored "Dark" is not a mode and falls back to the system preference |
| `Theme.ToggleInvolution` | src/hooks/use-theme.ts:44 | two toggles restore the theme |
| `Theme.SystemChangesIgnoredOncePersisted` | src/hooks/use-theme.ts:28-38 | with a valid stored mode, any sequence of system changes leaves the theme unchanged |
| `Theme.FirstChangePins` | src/hooks/use-theme.ts:28-38 | without a stored mode, the first change that moves the theme is persisted and pins it against later changes |
| `ConfirmationModal.GetTitle` | src/common/ConfirmationModal.tsx:68-84 | `getTitle`; `ExplicitTextWins`, `ItemNameTemplates` and `DefaultsOtherwise` describe it |
| `ConfirmationModal.GetDescription` | src/common/ConfirmationModal.tsx:85-101 | `getDescription`; `ExplicitTextWins`, `ItemNameTemplates` and `DefaultsOtherwise` describe it |
| `ConfirmationModal.Render` | src/common/ConfirmationModal.tsx:102-124 | what the dialog shows; `ConfirmVariants`, `LoadingRules`, `ClickConfirm` and `ClickCancel` describe it |
| `ConfirmationModal.ClickConfirm` | src/common/ConfirmationModal.tsx:64-66 | confirm calls `onConfirm` once unless the button is disabled, and never closes by itself |
| `ConfirmationModal.ClickCancel` | src/common/ConfirmationModal.tsx:115 | cancel calls `onClose` once unless the button is disabled |
| `ConfirmationModal.ExplicitTextWins` | src/common/ConfirmationModal.tsx:69 | an explicit non-empty title or description wins |
| `ConfirmationModal.ItemNameTemplates` | src/common/ConfirmationModal.tsx:70-77 | with an item name, delete, edit and create give "Delete X", "Edit X" and "Create X" and their quoted descriptions |
| `ConfirmationModal.DefaultsOtherwise` | src/common/ConfirmationModal.tsx:78-99 | info, warning, or no item name: the type's default title and description |
| `ConfirmationModal.AllDefaults` | src/common/ConfirmationModal.tsx:60 | the defaults are type info, "Yes" and "Cancel", not loading |
| `ConfirmationModal.ConfirmVariants` | src/common/ConfirmationModal.tsx:22-58 | the confirm button is destructive if and only if delete, outline if and only if warning, and default otherwise |
| `ConfirmationModal.LoadingRules` | src/common/ConfirmationModal.tsx:115-119 | while loading both buttons are disabled and confirm reads "Loading..." |
| `ConfirmationModal.DefaultTitlesDistinct` | src/common/ConfirmationModal.tsx:22-58 | no two types share a default title |
| `ConfirmationModal.EmptyStringsExample` | src/common/ConfirmationModal.tsx:60-70 | an empty confirm text is kept, and an empty item name falls back to the default title |

## Left out

- Rich-text editors, upload boxes, bulk actions, the login form and the purely presentational components: DOM APIs, asynchronous I/O and library code with no logic of their own.
- TanStack Table internals: sorting, filtering and the row models. Its three view-state cells are kept only as values that its callbacks replace. Selection keys are row indices, as the library's default row ids are.
- Formik, Radix, react-router and react-hot-toast internals, including `NavLink`'s own `isActive` matching. The field value, the touched flag and the pathname are plain fields.
- JavaScript numbers are integers here. Floating point, NaN and Infinity are not modelled, nor is `Number()` parsing.
- Date arithmetic and formatting: `setCookie` takes the clock reading and the `toUTCString` formatter as parameters. A Date value carries its own `toISOString()` and `String()` texts.
- The browser's cookie jar: `document.cookie` is a string field plus the list of assignments made to it. How the browser merges an assignment into the string it returns is not modelled.
- `removeAllLocalStorage`: storage I/O.
- `encodeURIComponent` throws `URIError` on a lone surrogate. Dafny's `char` holds only Unicode scalar values, so such a string cannot be built and that error path is not modelled.
- `localStorage.getItem` and `setItem` throwing, as browsers do when storage is blocked or full: storage is a plain map that always accepts writes.
- Pagination.PaginationBar.constructor: the `activePage = 1` default of an omitted prop is not modelled; the constructor always takes `activePage` as given.
- The outside-click listener in the multi-select, the trigger-width measurement in `AutoComplete`, and `console.log`.
- React's effect scheduling: each handler is followed by the commits its effects trigger. Each effect re-runs only when one of its dependencies changed. `AutoComplete`'s effects are followed for up to three further commits; a cascade still moving then is proved to swap two selections forever (`AutoComplete.RoundSettlesOrCycles`).
- AutoComplete: `selectedValue` is compared by contents, not by object identity. A parent that passes a fresh object on each render would re-run its effect more often than modelled.
- Callback props keep their identity across renders: `onSelectionChange` in `DataTable` and `onSelect` in the multi-select are effect dependencies, so a parent passing a new function on every render would re-run those effects and repeat their report. The model runs them only when the state they report changes.
- Theme.ThemeHook.constructor: models a browser that has `matchMedia`. Without it, the system-change effect calls `window.matchMedia` unguarded and would throw. That case is left out. `ReadInitialTheme` still covers it.
- `matchMedia` subscription and removal: the listener is the `SystemChanged` method, called once per "change" event.
- `onSearch` in `AutoComplete` and `onSearchChange`/`onRefresh` in `EnhancedDataTable`: they only forward to caller callbacks.
- Dialog open/close through the overlay or Escape key: Radix calls `onOpenChange`, and that is library code.

## Findings

| source | as written | input that shows it | evidently intended | confidence | as-written member | corrected member |
|---|---|---|---|---|---|---|
| src/common/Formik/AutoComplete.tsx:44-62 | the `selectedValue` effect also depends on `value?.value`, so it re-applies the prop after every change of the selection, and the field effect undoes it | form mode, options a and b, `selectedValue` a, field value "b" (or an empty field) | the prop initialises the selection only when it changes, so the field value decides afterwards | medium, not executed | `AutoComplete.EffectsFightExample` | `AutoComplete.CorrectedCascadeSettles` |

