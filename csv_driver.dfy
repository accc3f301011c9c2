/**
 * readstat_parse_csv's callbacks: the CSV parser reports each cell and each
 * end of row; the first row names the columns, the others hold values; the
 * widest cell of each column is measured; the observation count goes to
 * info_handler at the end.
 */
module CsvDriver {
  import opened Types
  import opened Variables
  import opened FileFormat
  import opened CsvMetadata
  import opened ColumnValue
  import opened ColumnHeader

  function Max(a: nat, b: nat): nat {
    if a > b then a else b
  }

  /** The length of cell `j` of a record, 0 where the record is shorter. */
  function CellWidth(rec: seq<string>, j: nat): nat {
    if j < |rec| then |rec[j]| else 0
  }

  /** The widest cell `j` among the records, 0 for none. */
  function MaxWidth(recs: seq<seq<string>>, j: nat): nat {
    if |recs| == 0 then 0 else Max(MaxWidth(recs[..|recs| - 1], j), CellWidth(recs[|recs| - 1], j))
  }

  /** The widest cell is as wide as every cell of its column, and is one of them. */
  lemma {:induction false} MaxWidthIsWidest(recs: seq<seq<string>>, j: nat)
    ensures forall r :: 0 <= r < |recs| ==> CellWidth(recs[r], j) <= MaxWidth(recs, j)
    ensures MaxWidth(recs, j) == 0 || exists r :: 0 <= r < |recs| && CellWidth(recs[r], j) == MaxWidth(recs, j)
    decreases |recs|
  {
    if |recs| > 0 {
      var init := recs[..|recs| - 1];
      MaxWidthIsWidest(init, j);
      forall r | 0 <= r < |recs| - 1
        ensures CellWidth(recs[r], j) <= MaxWidth(recs, j)
      {
        assert recs[r] == init[r];
      }
      if MaxWidth(recs, j) != CellWidth(recs[|recs| - 1], j) {
        var r :| 0 <= r < |init| && CellWidth(init[r], j) == MaxWidth(init, j);
        assert recs[r] == init[r];
      }
    }
  }

  /**
   * csv_metadata_cell in the first row: a record and a date flag are
   * appended for the cell and, when variable_handler is set, its header is
   * produced, with everything produce_column_header promises; unless that
   * faults, the cell position advances and the row is open.
   */
  method HeaderCell(c: Csv, s: string) returns (fault: Option<Fault>)
    requires c.Valid() && c.rows == 0
    requires c.handlers.variable ==> HeaderRoom(c.md, c.outputFormat, s, c.f, c.missingCapacity)
    requires c.handlers.variable && c.pass == 2 && c.f.columnType(s) == Ok(StringType) ==> c.columns < c.columnWidth.Length
    modifies c`variables, c`isDate, c`events, c`openRow, c`columns
    ensures fault.None? ==> c.columns == old(c.columns) + 1 && c.openRow
    ensures fault.Some? ==> c.columns == old(c.columns)
    ensures |c.variables| == old(|c.variables|) + 1 && c.variables[..old(|c.variables|)] == old(c.variables)
            && fresh(c.variables[old(|c.variables|)]) && c.variables[old(|c.variables|)].missingRanges.Length == c.missingCapacity
            && |c.isDate| == |c.variables| && c.isDate[..old(|c.isDate|)] == old(c.isDate)
    ensures !c.handlers.variable ==> fault.None? && c.events == old(c.events) && c.isDate[old(c.columns)] == false
    ensures c.handlers.variable ==>
              HeaderProduced(c, old(c.columns), s, c.variables[old(c.columns)], WidthAt(c.columnWidth, old(c.columns)),
                             c.isDate[old(c.columns)], old(c.events), c.events, fault)
  {
    var x := AppendVariable(c);
    if c.handlers.variable {
      fault := ProduceColumnHeader(c, s);
    } else {
      fault := None;
    }
    if fault.None? {
      Advance(c);
    }
  }

  /** The `realloc` of `variables` and `is_date` by one zeroed entry, as a fresh record. */
  method AppendVariable(c: Csv) returns (x: Variable)
    modifies c`variables, c`isDate
    ensures fresh(x) && fresh(x.missingRanges) && x.missingRanges.Length == c.missingCapacity
    ensures c.variables == old(c.variables) + [x] && c.isDate == old(c.isDate) + [false]
  {
    x := new Variable(c.missingCapacity);
    c.variables := c.variables + [x];
    c.isDate := c.isDate + [false];
  }

  /**
   * csv_metadata_cell in a later row: the cell's value, when value_handler
   * is set, then its column's width grows to the cell's length if that is
   * larger.
   */
  method DataCell(c: Csv, s: string) returns (fault: Option<Fault>)
    requires c.Valid() && c.rows >= 1 && c.columns < c.headerColumns
    modifies c`events, c.columnWidth
    ensures fault.None? ==> c.columnWidth[..] == old(c.columnWidth[..])[c.columns := Max(|s|, old(c.columnWidth[c.columns]))]
    ensures !c.handlers.value ==> fault.None? && c.events == old(c.events)
    ensures c.handlers.value ==>
              var x := c.variables[c.columns];
              var r := CellValue(s, c.outputFormat, x.typ, c.isDate[c.columns], x.missingRanges[..], x.missingCount, c.f, c.int32View);
              && (r.Ok? ==> fault.None? && c.events == old(c.events) + [ValueEvent(c.rows - 1, x, r.value)])
              && (r.Err? ==> fault == Some(r.fault))
  {
    if c.handlers.value {
      fault := ProduceCsvColumnValue(c, s);
      if fault.Some? {
        return;
      }
    }
    var w := c.columnWidth[c.columns];
    c.columnWidth[c.columns] := if |s| > w then |s| else w;
    return None;
  }

  /**
   * csv_metadata_cell for the cell `s`: in the first row a record is
   * appended for it and, when variable_handler is set, its header is
   * produced; in later rows, when value_handler is set, its value, and its
   * column's width grows to the cell's length if that is larger; the cell
   * position advances and the row is open.
   */
  method Cell(c: Csv, s: string) returns (fault: Option<Fault>)
    requires c.Valid() && c.rows >= 0
    requires c.rows >= 1 ==> c.columns < c.headerColumns
    requires c.rows == 0 && c.handlers.variable ==> HeaderRoom(c.md, c.outputFormat, s, c.f, c.missingCapacity)
    requires c.rows == 0 && c.handlers.variable && c.pass == 2 && c.f.columnType(s) == Ok(StringType) ==>
               c.columns < c.columnWidth.Length
    modifies c, c.columnWidth
    ensures c.rows == old(c.rows) && c.headerColumns == old(c.headerColumns) && c.columnWidth == old(c.columnWidth)
    ensures fault.None? ==> c.Valid() && c.columns == old(c.columns) + 1 && c.openRow
    ensures old(c.rows) == 0 ==>
              |c.variables| == old(|c.variables|) + 1 && c.variables[..old(|c.variables|)] == old(c.variables)
              && fresh(c.variables[old(|c.variables|)])
              && c.columnWidth[..] == old(c.columnWidth[..])
              && |c.isDate| == |c.variables| && c.isDate[..old(|c.isDate|)] == old(c.isDate)
    ensures old(c.rows) == 0 && !c.handlers.variable ==>
              fault.None? && c.events == old(c.events) && c.isDate[old(c.columns)] == false
    ensures old(c.rows) == 0 && c.handlers.variable ==>
              HeaderProduced(c, old(c.columns), s, c.variables[old(c.columns)], WidthAt(c.columnWidth, old(c.columns)),
                             c.isDate[old(c.columns)], old(c.events), c.events, fault)
    ensures old(c.rows) >= 1 ==>
              c.variables == old(c.variables) && c.isDate == old(c.isDate)
              && (fault.None? ==>
                    c.columnWidth[..] == old(c.columnWidth[..])[old(c.columns) := Max(|s|, old(c.columnWidth[c.columns]))])
    ensures old(c.rows) >= 1 && !c.handlers.value ==> fault.None? && c.events == old(c.events)
    ensures old(c.rows) >= 1 && c.handlers.value ==>
              var x := c.variables[old(c.columns)];
              var r := CellValue(s, c.outputFormat, x.typ, c.isDate[old(c.columns)], x.missingRanges[..], x.missingCount, c.f, c.int32View);
              && (r.Ok? ==> fault.None? && c.events == old(c.events) + [ValueEvent(c.rows - 1, x, r.value)])
              && (r.Err? ==> fault == Some(r.fault))
  {
    if c.rows == 0 {
      fault := HeaderCell(c, s);
    } else {
      fault := DataCell(c, s);
      if fault.None? {
        Advance(c);
      }
    }
  }

  /** The cell position advances and the row is open. */
  method Advance(c: Csv)
    modifies c`openRow, c`columns
    ensures c.openRow && c.columns == old(c.columns) + 1
  {
    c.openRow := true;
    c.columns := c.columns + 1;
  }

  /** The cells of one record, reported one after the other from the start of a row. */
  method ParseRecord(c: Csv, rec: seq<string>) returns (fault: Option<Fault>)
    requires c.Valid() && c.rows >= 0 && c.columns == 0
    requires c.rows >= 1 ==> |rec| <= c.headerColumns
    requires c.rows == 0 && c.handlers.variable ==>
               forall j :: 0 <= j < |rec| ==> HeaderRoom(c.md, c.outputFormat, rec[j], c.f, c.missingCapacity)
    requires c.rows == 0 && c.handlers.variable && c.pass == 2 ==>
               forall j :: 0 <= j < |rec| && c.f.columnType(rec[j]) == Ok(StringType) ==> j < c.columnWidth.Length
    modifies c, c.columnWidth
    ensures c.rows == old(c.rows) && c.headerColumns == old(c.headerColumns) && c.columnWidth == old(c.columnWidth)
    ensures fault.None? ==> c.Valid() && c.columns == |rec|
    ensures old(c.rows) >= 1 && fault.None? ==>
              forall j :: 0 <= j < c.columnWidth.Length ==> c.columnWidth[j] == Max(old(c.columnWidth[j]), CellWidth(rec, j))
  {
    var k := 0;
    while k < |rec|
      invariant 0 <= k <= |rec|
      invariant c.Valid() && c.columns == k
      invariant c.rows == old(c.rows) && c.headerColumns == old(c.headerColumns) && c.columnWidth == old(c.columnWidth)
      invariant c.rows >= 1 ==>
                  forall j :: 0 <= j < c.columnWidth.Length ==>
                    c.columnWidth[j] == (if j < k then Max(old(c.columnWidth[j]), |rec[j]|) else old(c.columnWidth[j]))
    {
      fault := Cell(c, rec[k]);
      if fault.Some? {
        return;
      }
      k := k + 1;
    }
    return None;
  }

  /**
   * csv_metadata_row: the row count advances; the end of the first row
   * fixes the number of columns and allocates a zeroed width per column;
   * the next cell starts a new row.
   */
  method Row(c: Csv)
    requires c.Valid() && c.rows >= 0
    modifies c
    ensures c.rows == old(c.rows) + 1 && c.columns == 0 && !c.openRow && c.Valid()
    ensures c.variables == old(c.variables) && c.isDate == old(c.isDate) && c.events == old(c.events)
    ensures old(c.rows) == 0 ==>
              c.headerColumns == old(c.columns) && fresh(c.columnWidth)
              && forall j :: 0 <= j < c.columnWidth.Length ==> c.columnWidth[j] == 0
    ensures old(c.rows) != 0 ==> c.headerColumns == old(c.headerColumns) && c.columnWidth == old(c.columnWidth)
  {
    c.rows := c.rows + 1;
    if c.rows == 1 {
      c.columnWidth := new nat[c.columns](_ => 0);
      c.headerColumns := c.columns;
    }
    c.columns := 0;
    c.openRow := false;
  }

  /**
   * The end of readstat_parse_csv: a row count that includes a closed last
   * row drops the header row; info_handler, when set, gets the observation
   * count and the number of columns.
   */
  method Finish(c: Csv)
    modifies c`rows, c`events
    ensures c.rows == (if old(c.openRow) then old(c.rows) else old(c.rows) - 1)
    ensures c.events == old(c.events) + (if c.handlers.info then [InfoEvent(c.rows, c.headerColumns)] else [])
  {
    if !c.openRow {
      c.rows := c.rows - 1;
    }
    if c.handlers.info {
      c.events := c.events + [InfoEvent(c.rows, c.headerColumns)];
    }
  }

  /** What the CSV parser reports for `records`, each a row of cells, then the end of the parse. */
  method Parse(c: Csv, records: seq<seq<string>>) returns (fault: Option<Fault>)
    requires c.Valid() && c.rows == 0 && c.columns == 0 && c.variables == [] && !c.openRow
    requires forall r :: 1 <= r < |records| ==> |records[r]| <= |records[0]|
    requires |records| > 0 && c.handlers.variable ==>
               forall j :: 0 <= j < |records[0]| ==> HeaderRoom(c.md, c.outputFormat, records[0][j], c.f, c.missingCapacity)
    requires |records| > 0 && c.handlers.variable && c.pass == 2 ==>
               forall j :: 0 <= j < |records[0]| && c.f.columnType(records[0][j]) == Ok(StringType) ==> j < c.columnWidth.Length
    modifies c, c.columnWidth
    ensures fault.None? ==> c.rows == |records| - 1
    ensures fault.None? && |records| > 0 ==>
              c.headerColumns == |records[0]| == c.columnWidth.Length == |c.variables|
              && forall j :: 0 <= j < |records[0]| ==> c.columnWidth[j] == MaxWidth(records[1..], j)
    ensures fault.None? && c.handlers.info ==> |c.events| > 0 && c.events[|c.events| - 1] == InfoEvent(|records| - 1, c.headerColumns)
  {
    var widths := c.columnWidth;
    var r := 0;
    while r < |records|
      invariant 0 <= r <= |records|
      invariant c.Valid() && c.rows == r && c.columns == 0 && !c.openRow
      invariant c.columnWidth == widths || fresh(c.columnWidth)
      invariant r == 0 ==> c.variables == [] && c.columnWidth == widths
      invariant r >= 1 ==>
                  c.headerColumns == |records[0]| == c.columnWidth.Length
                  && forall j :: 0 <= j < |records[0]| ==> c.columnWidth[j] == MaxWidth(records[1..r], j)
    {
      fault := ParseRecord(c, records[r]);
      if fault.Some? {
        return;
      }
      Row(c);
      if r >= 1 {
        forall j | 0 <= j < |records[0]|
          ensures c.columnWidth[j] == MaxWidth(records[1..r + 1], j)
        {
          assert records[1..r + 1][..r - 1] == records[1..r];
        }
      }
      r := r + 1;
    }
    if r == 1 {
      forall j | 0 <= j < |records[0]|
        ensures c.columnWidth[j] == MaxWidth(records[1..], j)
      {
      }
    }
    if r > 0 {
      assert records[1..r] == records[1..];
    }
    Finish(c);
    return None;
  }
}
