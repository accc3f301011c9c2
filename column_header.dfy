/**
 * produce_column_header: a cell of the CSV's first row names a column; the
 * column's variable record is filled from the JSON metadata, its missing
 * values and value labels are produced, and on the second pass the
 * variable goes to variable_handler.
 */
module ColumnHeader {
  import opened Types
  import opened Variables
  import opened JsonMetadata
  import opened FileFormat
  import opened Plans
  import opened Missingness
  import opened CsvMetadata
  import opened ValueLabel

  /** The fields of readstat_variable_t that produce_column_header sets. */
  datatype Header = Header(typ: ValueType, alignment: Alignment, format: string, storageWidth: nat,
                           index: nat, varLabel: string, name: string)

  /** Strings are left-aligned, numbers right-aligned; any other type has no alignment here. */
  function AlignmentOf(t: ValueType): Option<Alignment> {
    match t
    case StringType => Some(AlignLeft)
    case DoubleType => Some(AlignRight)
    case Int32Type => Some(AlignRight)
    case _ => None
  }

  /** The display format of a date column: "EDATE40" for SAV, "%td" for DTA, none otherwise. */
  function DateFormat(fmt: OutputFormat, isDate: bool): string {
    if isDate && fmt == Sav then "EDATE40"
    else if isDate && fmt == Dta then "%td"
    else ""
  }

  /** What a `label` property leaves in the zeroed label buffer: its text, or nothing. */
  function LabelOr(t: Option<string>): string {
    match t
    case None => ""
    case Some(text) => text
  }

  /**
   * The variable record for the column named `s`, the `index`-th one; the
   * column's type comes from column_type and only STRING, DOUBLE and INT32
   * are accepted; a string column's storage width is the `width` measured
   * by the first pass, on the second.
   */
  function HeaderOf(md: Metadata, fmt: OutputFormat, pass: int, width: nat, index: nat, s: string, f: Foreign)
    : (r: Result<Header>)
    ensures r.Err? <==> f.columnType(s).Err? || AlignmentOf(f.columnType(s).value).None?
    ensures r.Err? && f.columnType(s).Ok? ==> r.fault == UnsupportedColumnType
    ensures r.Ok? ==> r.value.typ == f.columnType(s).value && r.value.alignment != AlignUnknown
                      && (r.value.alignment == AlignLeft <==> r.value.typ == StringType)
    ensures r.Ok? ==> r.value.index == index && |r.value.name| <= 254 && r.value.name <= s && (|s| <= 254 ==> r.value.name == s)
    ensures r.Ok? ==> |r.value.varLabel| <= 1022
    ensures r.Ok? ==> (r.value.format != "" <==> f.isDate(s) && (fmt == Sav || fmt == Dta))
    ensures r.Ok? ==> r.value.storageWidth == (if pass == 2 && r.value.typ == StringType then width else 0)
  {
    match f.columnType(s)
    case Err(e) => Err(e)
    case Ok(t) =>
      match AlignmentOf(t)
      case None => Err(UnsupportedColumnType)
      case Some(a) =>
        TruncatePrefix(s, 254);
        var labelText := PropertyText(md, s, "label", 1024);
        Ok(Header(t, a, DateFormat(fmt, f.isDate(s)), if pass == 2 && t == StringType then width else 0,
                  index, LabelOr(labelText), Truncate(s, 254)))
  }

  /** A zero-filled table of `n` values. */
  function Zeros(n: nat): (r: seq<Value>)
    ensures |r| == n && forall i :: 0 <= i < n ==> r[i] == ZeroValue
  {
    seq(n, _ => ZeroValue)
  }

  /** `column_width[j]`, read only where it exists. */
  function WidthAt(a: array<nat>, j: nat): nat
    reads a
  {
    if j < a.Length then a[j] else 0
  }

  /** The missing-value table has room for the column's missing values, whatever their type. */
  predicate HeaderRoom(md: Metadata, fmt: OutputFormat, s: string, f: Foreign, cap: nat) {
    f.columnType(s).Ok? ==> Fits(0, MissingPlan(md, s, fmt, f.columnType(s).value, f.isDate(s), f).adds, cap)
  }

  /** The variable record holds the header `h`. */
  ghost predicate Holds(x: Variable, h: Header)
    reads x
  {
    x.typ == h.typ && x.alignment == h.alignment && x.format == h.format && x.storageWidth == h.storageWidth
    && x.index == h.index && x.varLabel == h.varLabel && x.name == h.name
  }

  /**
   * The start of produce_column_header: the record is cleared, the column
   * type looked up and checked, the date flag recorded and the alignment set.
   */
  method TypeVariable(c: Csv, s: string, x: Variable) returns (t: Result<ValueType>)
    requires c.columns < |c.isDate|
    modifies c`isDate, x, x.missingRanges
    ensures |c.isDate| == old(|c.isDate|) && c.isDate == old(c.isDate)[c.columns := c.isDate[c.columns]]
    ensures t.Err? <==> c.f.columnType(s).Err? || AlignmentOf(c.f.columnType(s).value).None?
    ensures t.Err? && c.f.columnType(s).Err? ==> t.fault == c.f.columnType(s).fault
    ensures t.Err? && c.f.columnType(s).Ok? ==> t.fault == UnsupportedColumnType
    ensures t.Ok? ==> t == c.f.columnType(s) && Some(x.alignment) == AlignmentOf(t.value)
                      && c.isDate == old(c.isDate)[c.columns := c.f.isDate(s)]
    ensures t.Ok? ==> x.typ == t.value && x.index == 0 && x.name == "" && x.format == "" && x.varLabel == ""
                      && x.storageWidth == 0 && x.missingCount == 0
                      && x.missingRanges[..] == Zeros(x.missingRanges.Length)
  {
    x.Clear();
    assert x.missingRanges[..] == Zeros(x.missingRanges.Length);
    var coltype := c.f.columnType(s);
    if coltype.Err? {
      return Err(coltype.fault);
    }
    var typ := coltype.value;
    var isDate := c.f.isDate(s);
    c.isDate := c.isDate[c.columns := isDate];
    x.typ := typ;
    if typ == StringType {
      x.alignment := AlignLeft;
    } else if typ == DoubleType {
      x.alignment := AlignRight;
    } else if typ == Int32Type {
      x.alignment := AlignRight;
    } else {
      return Err(UnsupportedColumnType);
    }
    return Ok(typ);
  }

  /**
   * The first half of produce_column_header: the record is cleared, its
   * type checked and its fields set, and the column's date flag recorded.
   */
  method FillVariable(c: Csv, s: string, x: Variable) returns (h: Result<Header>)
    requires c.columns < |c.isDate|
    requires c.pass == 2 && c.f.columnType(s) == Ok(StringType) ==> c.columns < c.columnWidth.Length
    modifies c`isDate, x, x.missingRanges
    ensures |c.isDate| == old(|c.isDate|) && c.isDate == old(c.isDate)[c.columns := c.isDate[c.columns]]
    ensures h == HeaderOf(c.md, c.outputFormat, c.pass, WidthAt(c.columnWidth, c.columns), c.columns, s, c.f)
    ensures h.Ok? ==> Holds(x, h.value) && c.isDate == old(c.isDate)[c.columns := c.f.isDate(s)]
                      && x.missingRanges[..] == Zeros(x.missingRanges.Length) && x.missingCount == 0
  {
    var t := TypeVariable(c, s, x);
    if t.Err? {
      return Err(t.fault);
    }
    var width := 0;
    if c.pass == 2 && t.value == StringType {
      width := c.columnWidth[c.columns];
    }
    var labelText := CopyVariableProperty(c.md, s, "label", 1024);
    var header := Header(t.value, x.alignment, DateFormat(c.outputFormat, c.isDate[c.columns]), width,
                         c.columns, LabelOr(labelText), Truncate(s, 254));
    StoreHeader(x, header);
    h := Ok(header);
  }

  /** The field stores of produce_column_header after the type: format, storage width, index, label and name. */
  method StoreHeader(x: Variable, h: Header)
    requires x.typ == h.typ && x.alignment == h.alignment
    modifies x`format, x`storageWidth, x`index, x`varLabel, x`name
    ensures Holds(x, h)
  {
    x.format := h.format;
    x.storageWidth := h.storageWidth;
    x.index := h.index;
    x.varLabel := h.varLabel;
    x.name := h.name;
  }

  /**
   * The second half of produce_column_header, for a column of type `t`:
   * the missing values from a count of zero, then the value labels when
   * value_label_handler is set, then the variable_handler call on the
   * second pass when it is set.
   */
  method ProduceAfterFill(c: Csv, s: string, x: Variable, t: ValueType, isDate: bool) returns (fault: Option<Fault>)
    requires c.columns < |c.variables| == |c.isDate| && x == c.variables[c.columns] && c.isDate[c.columns] == isDate
    requires x.missingCount == 0 && x.typ == t
    requires Fits(0, MissingPlan(c.md, s, c.outputFormat, t, isDate, c.f).adds, x.missingRanges.Length)
    modifies c`events, x`missingCount, x.missingRanges
    ensures var mp := MissingPlan(c.md, s, c.outputFormat, t, isDate, c.f);
            && Outcome(x, old(x.missingRanges[..]), 0, mp, if mp.fault.Some? then fault else None)
            && (mp.fault.Some? ==> c.events == old(c.events))
            && (mp.fault.None? ==>
                  var vl := if c.handlers.valueLabel
                            then ValueLabels(c.md, s, Kind(c.outputFormat, t, isDate), x.missingRanges[..], x.missingCount, c.f)
                            else Emitted([], None);
                  && (vl.fault.Some? ==> fault == vl.fault && c.events == old(c.events) + vl.events)
                  && (vl.fault.None? ==>
                        fault.None?
                        && c.events == old(c.events) + vl.events
                                       + (if c.handlers.variable && c.pass == 2 then [VariableEvent(c.columns, x, s)] else [])))
  {
    fault := ProduceMissingness(c.md, s, c.outputFormat, isDate, c.f, x);
    if fault.Some? {
      return;
    }
    if c.handlers.valueLabel {
      fault := ProduceValueLabel(c, s, t);
      if fault.Some? {
        return;
      }
    }
    if c.handlers.variable && c.pass == 2 {
      c.events := c.events + [VariableEvent(c.columns, x, s)];
    }
    return None;
  }

  /**
   * What produce_column_header leaves behind for the cell `s` in column
   * `col`, whose record is `x`, whose `column_width` entry is `width` and
   * whose date flag is now `isDate`: the handler calls made before it,
   * `events0`, grow to `events`. A header that
   * cannot be resolved is its fault and nothing else is emitted; otherwise
   * the record holds the header, the column's date flag is recorded, the
   * missing-value table follows the plan from a count of zero, and the
   * value-label calls and the second-pass variable_handler call follow,
   * each stopped by the first fault.
   */
  ghost predicate HeaderProduced(c: Csv, col: nat, s: string, x: Variable, width: nat, isDate: bool,
                                 events0: seq<Event>, events: seq<Event>, fault: Option<Fault>)
    reads x, x.missingRanges
  {
    var h := HeaderOf(c.md, c.outputFormat, c.pass, width, col, s, c.f);
    && (h.Err? ==> fault == Some(h.fault) && events == events0)
    && (h.Ok? ==>
          var mp := MissingPlan(c.md, s, c.outputFormat, h.value.typ, isDate, c.f);
          && Holds(x, h.value)
          && isDate == c.f.isDate(s)
          && x.missingRanges[..] == ApplyAll(Zeros(c.missingCapacity), 0, mp.adds)
          && x.missingCount == |mp.adds|
          && (mp.fault.Some? ==> fault == mp.fault && events == events0)
          && (mp.fault.None? ==>
                var vl := if c.handlers.valueLabel
                          then ValueLabels(c.md, s, Kind(c.outputFormat, h.value.typ, isDate), x.missingRanges[..], x.missingCount, c.f)
                          else Emitted([], None);
                && (vl.fault.Some? ==> fault == vl.fault && events == events0 + vl.events)
                && (vl.fault.None? ==>
                      fault.None?
                      && events == events0 + vl.events
                                     + (if c.handlers.variable && c.pass == 2 then [VariableEvent(col, x, s)] else []))))
  }

  /**
   * produce_column_header for the cell `s`: the record is cleared and
   * filled; then the missing values are produced from a count of zero;
   * then, when value_label_handler is set, the value labels; then, on the
   * second pass and when variable_handler is set, one call passing the
   * column's position, its record and its name. A fault stops it where
   * it is met.
   */
  method ProduceColumnHeader(c: Csv, s: string) returns (fault: Option<Fault>)
    requires c.columns < |c.variables| == |c.isDate|
    requires c.variables[c.columns].missingRanges.Length == c.missingCapacity
    requires HeaderRoom(c.md, c.outputFormat, s, c.f, c.missingCapacity)
    requires c.pass == 2 && c.f.columnType(s) == Ok(StringType) ==> c.columns < c.columnWidth.Length
    modifies c`isDate, c`events, c.variables[c.columns], c.variables[c.columns].missingRanges
    ensures |c.isDate| == old(|c.isDate|) && c.isDate == old(c.isDate)[c.columns := c.isDate[c.columns]]
    ensures HeaderProduced(c, c.columns, s, c.variables[c.columns], WidthAt(c.columnWidth, c.columns), c.isDate[c.columns],
                           old(c.events), c.events, fault)
  {
    var x := c.variables[c.columns];
    var h := FillVariable(c, s, x);
    if h.Err? {
      return Some(h.fault);
    }
    fault := ProduceAfterFill(c, s, x, h.value.typ, c.isDate[c.columns]);
  }
}
