/** The generic data table of the frontend: the column-filter map and the
    predicate it induces on rows, the list of displayed columns, and the set
    of selected rows. */
module DataTable {
  import opened Seqs
  import opened JsStrings

  /** A cell value as a row holds it or a formatter returns it: a field that is
      missing reads as undefined. */
  datatype CellValue = Undefined | Null | Text(s: string) | Number(n: int) | Boolean(b: bool)

  /** A row object; `ref` stands for its identity, which the selection set
      compares by. */
  datatype Row = Row(ref: int, fields: map<string, CellValue>)

  /** A column: the row property it shows and an optional formatter. */
  datatype Column = Column(key: string, formatter: Option<(CellValue, Row) -> CellValue>)

  /** The falsy values of JavaScript among cell values. */
  predicate IsFalsy(v: CellValue) {
    v.Undefined? || v.Null? || v == Text("") || v == Number(0) || v == Boolean(false)
  }

  /** `String(v || '')`: falsy values print as the empty string. */
  function DisplayText(v: CellValue): (r: string)
    ensures IsFalsy(v) ==> r == ""
    ensures v.Text? ==> r == v.s
    ensures v.Number? && v.n != 0 ==> r == NumberToString(v.n) && r != ""
    ensures v == Boolean(true) ==> r == "true"
  {
    if IsFalsy(v) then ""
    else match v
      case Text(s) => s
      case Number(n) => NumberToString(n)
      case Boolean(_) => "true"
      case _ => ""
  }

  /** getCellValue: the formatter applied to the raw field and the row when the
      column has one, otherwise the raw field. */
  function GetCellValue(row: Row, column: Column): (r: CellValue)
    ensures column.formatter.None? && column.key in row.fields ==> r == row.fields[column.key]
    ensures column.formatter.None? && column.key !in row.fields ==> r == Undefined
    ensures column.formatter.Some? ==>
              r == column.formatter.value(if column.key in row.fields then row.fields[column.key] else Undefined, row)
  {
    var rawValue := if column.key in row.fields then row.fields[column.key] else Undefined;
    match column.formatter
    case Some(format) => format(rawValue, row)
    case None => rawValue
  }

  function HasKey(key: string): Column -> bool {
    (c: Column) => c.key == key
  }

  /** One filter entry holds for a row: an empty value or a key naming no column
      is ignored; otherwise the lower-cased filter value occurs in the lower-cased
      text of the first column with that key. */
  predicate FilterHolds(columns: seq<Column>, key: string, filterValue: string, row: Row) {
    var k := FindIndex(columns, HasKey(key));
    filterValue == "" || k < 0
    || Includes(ToLowerCase(DisplayText(GetCellValue(row, columns[k]))), ToLowerCase(filterValue))
  }

  /** A row is shown when every entry of the filter map holds for it. */
  predicate RowMatches(columns: seq<Column>, filters: map<string, string>, row: Row) {
    forall key :: key in filters ==> FilterHolds(columns, key, filters[key], row)
  }

  /** Without filters every row is shown. */
  lemma NoFiltersShowEverything(columns: seq<Column>, row: Row)
    ensures RowMatches(columns, map[], row)
  {
  }

  /** An entry with an empty value filters nothing: it acts as if deleted. */
  lemma EmptyFilterIsIgnored(columns: seq<Column>, filters: map<string, string>, key: string, row: Row)
    ensures RowMatches(columns, filters[key := ""], row) <==> RowMatches(columns, filters - {key}, row)
  {
    if RowMatches(columns, filters - {key}, row) {
      forall k | k == key || k in filters
        ensures FilterHolds(columns, k, filters[key := ""][k], row)
      {
        if k != key {
          assert k in filters - {key};
        }
      }
    } else if RowMatches(columns, filters[key := ""], row) {
      forall k | k in filters - {key}
        ensures FilterHolds(columns, k, filters[k], row)
      {
        assert k in filters[key := ""];
      }
    }
  }

  /** Filters combine by AND: adding an entry can only hide more rows. */
  lemma MoreFiltersShowFewerRows(columns: seq<Column>, filters: map<string, string>, key: string, value: string, row: Row)
    requires RowMatches(columns, filters[key := value], row)
    ensures RowMatches(columns, filters - {key}, row)
    ensures FilterHolds(columns, key, value, row)
  {
    assert key in filters[key := value];
    forall k | k in filters - {key}
      ensures FilterHolds(columns, k, filters[k], row)
    {
      assert k in filters[key := value];
    }
  }

  /** A filter on a column the table does not have hides nothing. */
  lemma UnknownColumnIsIgnored(columns: seq<Column>, filters: map<string, string>, key: string, value: string, row: Row)
    requires forall i :: 0 <= i < |columns| ==> columns[i].key != key
    ensures RowMatches(columns, filters[key := value], row) <==> RowMatches(columns, filters - {key}, row)
  {
    if RowMatches(columns, filters - {key}, row) {
      forall k | k == key || k in filters
        ensures FilterHolds(columns, k, filters[key := value][k], row)
      {
        if k != key {
          assert k in filters - {key};
        }
      }
    } else if RowMatches(columns, filters[key := value], row) {
      forall k | k in filters - {key}
        ensures FilterHolds(columns, k, filters[k], row)
      {
        assert k in filters[key := value];
      }
    }
  }

  /** Matching is case-insensitive on ASCII letters. */
  lemma FilterIgnoresCase(columns: seq<Column>, key: string, value: string, row: Row)
    ensures FilterHolds(columns, key, ToLowerCase(value), row) <==> FilterHolds(columns, key, value, row)
  {
    ToLowerCaseIdempotent(value);
    assert |ToLowerCase(value)| == |value|;
  }

  function KeyOf(c: Column): string {
    c.key
  }

  /** The table component's state. */
  class DataTableComponent {
    var data: seq<Row>
    var columns: seq<Column>
    var actions: seq<string>
    var enableSelection: bool
    var showRowNumbers: bool
    var displayedColumns: seq<string>
    var selectedRows: set<Row>
    var columnFilters: map<string, string>

    /** A table given its inputs, before setupColumns has run; the configuration
        defaults to no selection column and no row numbers. */
    constructor (data: seq<Row>, columns: seq<Column>, actions: seq<string>, enableSelection: bool, showRowNumbers: bool)
      ensures this.data == data && this.columns == columns && this.actions == actions
      ensures this.enableSelection == enableSelection && this.showRowNumbers == showRowNumbers
      ensures displayedColumns == [] && selectedRows == {} && columnFilters == map[]
    {
      this.data := data;
      this.columns := columns;
      this.actions := actions;
      this.enableSelection := enableSelection;
      this.showRowNumbers := showRowNumbers;
      displayedColumns := [];
      selectedRows := {};
      columnFilters := map[];
    }

    /** setupColumns: 'select' first when selection is enabled, then 'rowNumber'
        when row numbers are shown, then every column key in order, and
        'actions' last exactly when there are actions. */
    method SetupColumns()
      modifies this`displayedColumns
      ensures var lead := (if enableSelection then 1 else 0) + (if showRowNumbers then 1 else 0);
              && |displayedColumns| == lead + |columns| + (if |actions| > 0 then 1 else 0)
              && (enableSelection ==> displayedColumns[0] == "select")
              && (showRowNumbers ==> displayedColumns[lead - 1] == "rowNumber")
              && (forall i :: 0 <= i < |columns| ==> displayedColumns[lead + i] == columns[i].key)
              && (|actions| > 0 ==> displayedColumns[|displayedColumns| - 1] == "actions")
    {
      displayedColumns := [];
      if enableSelection {
        displayedColumns := displayedColumns + ["select"];
      }
      if showRowNumbers {
        displayedColumns := displayedColumns + ["rowNumber"];
      }
      displayedColumns := displayedColumns + Map(columns, KeyOf);
      if |actions| > 0 {
        displayedColumns := displayedColumns + ["actions"];
      }
    }

    /** The filter predicate: true when no filter is set; otherwise the entries
        are checked one by one and the first that fails rejects the row. */
    method FilterPredicate(row: Row) returns (pass: bool)
      ensures pass <==> RowMatches(columns, columnFilters, row)
    {
      if |columnFilters| == 0 {
        return true;
      }
      var remaining := columnFilters.Keys;
      while remaining != {}
        invariant remaining <= columnFilters.Keys
        invariant forall key :: key in columnFilters && key !in remaining ==> FilterHolds(columns, key, columnFilters[key], row)
        decreases remaining
      {
        var columnKey :| columnKey in remaining;
        var filterValue := columnFilters[columnKey];
        remaining := remaining - {columnKey};
        if filterValue == "" {
          continue;
        }
        var k := FindIndex(columns, HasKey(columnKey));
        if k < 0 {
          continue;
        }
        var cellValueStr := ToLowerCase(DisplayText(GetCellValue(row, columns[k])));
        var filterValueStr := ToLowerCase(filterValue);
        if !Includes(cellValueStr, filterValueStr) {
          return false;
        }
      }
      return true;
    }

    /** applyColumnFilter: a non-empty value is set for the key, an empty one
        deletes it; other keys keep their values. */
    method ApplyColumnFilter(columnKey: string, filterValue: string)
      modifies this`columnFilters
      ensures filterValue != "" ==> columnFilters == old(columnFilters)[columnKey := filterValue]
      ensures filterValue == "" ==> columnFilters == old(columnFilters) - {columnKey}
      ensures forall key :: key in columnFilters ==> columnFilters[key] != "" || key in old(columnFilters)
    {
      if filterValue != "" {
        columnFilters := columnFilters[columnKey := filterValue];
      } else {
        columnFilters := columnFilters - {columnKey};
      }
    }

    /** clearColumnFilters: no filter is left, so every row is shown again. */
    method ClearColumnFilters()
      modifies this`columnFilters
      ensures columnFilters == map[]
      ensures forall row :: RowMatches(columns, columnFilters, row)
    {
      columnFilters := map[];
    }

    /** toggleRowSelection: flips the membership of that row and no other. */
    method ToggleRowSelection(row: Row)
      modifies this`selectedRows
      ensures selectedRows == Toggle(old(selectedRows), row)
    {
      if row in selectedRows {
        selectedRows := selectedRows - {row};
      } else {
        selectedRows := selectedRows + {row};
      }
    }

    /** isAllSelected: the selection has as many rows as the data. */
    predicate IsAllSelected()
      reads this
    {
      |selectedRows| == |data|
    }

    /** toggleAllRows: a full selection (by size) is cleared, otherwise every
        data row is added to it. */
    method ToggleAllRows()
      modifies this`selectedRows
      ensures old(IsAllSelected()) ==> selectedRows == {}
      ensures !old(IsAllSelected()) ==> selectedRows == old(selectedRows) + (set r | r in data)
    {
      if IsAllSelected() {
        selectedRows := {};
      } else {
        for i := 0 to |data|
          invariant selectedRows == old(selectedRows) + (set j | 0 <= j < i :: data[j])
        {
          selectedRows := selectedRows + {data[i]};
        }
        assert (set j | 0 <= j < |data| :: data[j]) == (set r | r in data);
      }
    }
  }

  predicate DistinctRows(data: seq<Row>) {
    forall i, j :: 0 <= i < j < |data| ==> data[i] != data[j]
  }

  lemma {:induction false} DistinctRowCount(data: seq<Row>)
    requires DistinctRows(data)
    ensures |(set r | r in data)| == |data|
  {
    if data != [] {
      var tail := data[1..];
      DistinctRowCount(tail);
      assert (set r | r in data) == (set r | r in tail) + {data[0]};
      assert data[0] !in tail;
    }
  }

  /** The size comparison of isAllSelected means "every row is selected" as long
      as the rows are distinct and the selection holds only rows of the data. */
  lemma AllSelectedMeansEveryRow(data: seq<Row>, selected: set<Row>)
    requires DistinctRows(data)
    requires forall r :: r in selected ==> r in data
    ensures |selected| == |data| <==> forall r :: r in data ==> r in selected
  {
    var all := set r | r in data;
    DistinctRowCount(data);
    assert selected <= all;
    if |selected| == |data| {
      assert |all - selected| == |all| - |selected|;
      assert all - selected == {};
      forall r | r in data
        ensures r in selected
      {
        assert r in all;
      }
    } else {
      assert selected != all;
    }
  }

  /** When the selection holds a row that is no longer in the data, the size
      comparison can report a full selection with a data row unselected. */
  lemma StaleSelectionLooksFull()
    ensures var a, b, c := Row(1, map[]), Row(2, map[]), Row(3, map[]);
            |{a, c}| == |[a, b]| && b !in {a, c}
  {
    var a, b, c := Row(1, map[]), Row(2, map[]), Row(3, map[]);
    assert a != c;
  }
}
