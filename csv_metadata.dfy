/**
 * struct csv_metadata: the state the CSV callbacks share, and the calls the
 * conversion layer makes into the reader's handlers, recorded in order.
 */
module CsvMetadata {
  import opened Types
  import opened Variables
  import opened JsonMetadata
  import opened FileFormat

  /** One call into a handler of readstat_parser_t. */
  datatype Event =
    | VariableEvent(index: nat, variable: Variable, valLabels: string)  // variable_handler
    | ValueEvent(obsIndex: int, variable: Variable, value: Value)       // value_handler
    | LabelEvent(valLabels: string, value: Value, labelText: string)    // value_label_handler
    | InfoEvent(obsCount: int, varCount: nat)                           // info_handler

  /** Which handlers of readstat_parser_t are set. */
  datatype Handlers = Handlers(variable: bool, value: bool, valueLabel: bool, info: bool)

  class Csv {
    var rows: int
    /** The position of the next cell in the current row. */
    var columns: nat
    /** `_columns`: the number of header cells, recorded at the end of the first row. */
    var headerColumns: nat
    /** `column_width`: the widest cell seen so far in each column, allocated at the end of the first row. */
    var columnWidth: array<nat>
    var openRow: bool
    /** `variables`: one record per header cell, grown while the first row is read. */
    var variables: seq<Variable>
    /** `is_date`: the date flag of each column, recorded with its header. */
    var isDate: seq<bool>
    /** The handler calls made so far. */
    var events: seq<Event>
    /** The JSON metadata, the output format, the pass number and the handlers set. */
    const md: Metadata
    const outputFormat: OutputFormat
    const pass: int
    const handlers: Handlers
    /** The routines the layer calls but does not define. */
    const f: Foreign
    /**
     * The `i32_value` member read out of a union whose stored member is a
     * double or a string pointer: its low 32 bits, which depend on the
     * platform's representation.
     */
    const int32View: Payload -> int
    /** The capacity of each variable's missing-value table. */
    const missingCapacity: nat

    /**
     * The shape the callbacks keep: a date flag per variable record, every
     * record's missing-value table of the same capacity; while the first
     * row is read there is one record per cell so far; after it, one per
     * header cell, one width per header cell, and no data row longer.
     */
    ghost predicate Valid()
      reads this
    {
      |isDate| == |variables|
      && (forall v :: v in variables ==> v.missingRanges.Length == missingCapacity)
      && (rows == 0 ==> columns == |variables|)
      && (rows >= 1 ==> |variables| == headerColumns == columnWidth.Length && columns <= headerColumns)
    }

    /**
     * The record as `memset(md, 0, sizeof(csv_metadata))` leaves it, with
     * the inputs filled in; `widths` is the column-width table a first pass
     * measured, which the second pass reads for string columns.
     */
    constructor (md: Metadata, outputFormat: OutputFormat, pass: int, handlers: Handlers, f: Foreign,
                 int32View: Payload -> int, missingCapacity: nat, widths: array<nat>)
      ensures this.md == md && this.outputFormat == outputFormat && this.pass == pass
      ensures this.handlers == handlers && this.f == f && this.int32View == int32View
      ensures this.missingCapacity == missingCapacity
      ensures rows == 0 && columns == 0 && headerColumns == 0 && columnWidth == widths && !openRow
      ensures variables == [] && isDate == [] && events == [] && Valid()
    {
      this.md, this.outputFormat, this.pass := md, outputFormat, pass;
      this.handlers, this.f, this.int32View, this.missingCapacity := handlers, f, int32View, missingCapacity;
      rows, columns, headerColumns, openRow := 0, 0, 0, false;
      columnWidth := widths;
      variables, isDate, events := [], [], [];
    }
  }
}
