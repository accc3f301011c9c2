/**
 * Turning one CSV cell into one typed ReadStat value: system-missing for an
 * empty cell, a tagged user-missing value where the column's missing-value
 * table says so, a present value otherwise; one value_handler call per cell.
 */
module ColumnValue {
  import opened Types
  import opened Variables
  import opened FileFormat
  import opened CsvMetadata
  import DtaDays

  // ---------------------------------------------------------------------
  // Reading the missing-value table
  // ---------------------------------------------------------------------

  /** Slot `j` of the table; a read past its capacity gives the zeroed value. */
  function SlotAt(slots: seq<Value>, j: nat): Value {
    if j < |slots| then slots[j] else ZeroValue
  }

  /** readstat_variable_get_missing_range_lo: the low bound of range `i`, in slot 2i. */
  function RangeLo(slots: seq<Value>, i: nat): Value {
    SlotAt(slots, 2 * i)
  }

  /** readstat_variable_get_missing_range_hi: the high bound of range `i`, in slot 2i + 1. */
  function RangeHi(slots: seq<Value>, i: nat): Value {
    SlotAt(slots, 2 * i + 1)
  }

  /** readstat_double_value of a DOUBLE: its payload; the zeroed union reads as 0. */
  function DoubleOf(v: Value): real {
    if v.v.DoubleV? then v.v.d else 0.0
  }

  /**
   * The union's `i32_value`: an INT32 payload, 0 for the zeroed union, and
   * the platform's reading of the stored double or pointer otherwise.
   */
  function Int32Of(v: Value, view: Payload -> int): int {
    match v.v
    case Int32V(i) => i
    case NoPayload => 0
    case _ => view(v.v)
  }

  /** Range `i` has a DOUBLE low bound. */
  predicate LoIsDouble(slots: seq<Value>, i: nat) {
    RangeLo(slots, i).typ == DoubleType
  }

  /** `val` lies in range `i`, both ends included. */
  predicate InRange(slots: seq<Value>, i: nat, val: real) {
    DoubleOf(RangeLo(slots, i)) <= val <= DoubleOf(RangeHi(slots, i))
  }

  // ---------------------------------------------------------------------
  // The value constructors
  // ---------------------------------------------------------------------

  /** value_sysmiss: system-missing, with the column's type. */
  function ValueSysmiss(typ: ValueType): (r: Value)
    ensures r.isSystemMissing && !r.isTaggedMissing && r.typ == typ
  {
    Value(typ, true, false, NoTag, NoPayload)
  }

  /** value_string: the cell's text, verbatim, as a present STRING. */
  function ValueString(s: string): (r: Value)
    ensures r.typ == StringType && r.v == StringV(s) && !r.isSystemMissing && !r.isTaggedMissing
  {
    Present(StringType, StringV(s))
  }

  /** value_double_regular: the number the text starts with, as a present DOUBLE; no number is fatal. */
  function ValueDoubleRegular(s: string, strtod: string -> Option<real>): (r: Result<Value>)
    ensures r.Err? <==> strtod(s).None?
    ensures r.Err? ==> r.fault == NotANumber
    ensures r.Ok? ==> r.value == DoubleValue(strtod(s).value) && !r.value.isTaggedMissing
  {
    match strtod(s)
    case None => Err(NotANumber)
    case Some(val) => Ok(Value(DoubleType, false, false, NoTag, DoubleV(val)))
  }

  /** value_double_date_sav: the SAV date the text starts with, as a present DOUBLE; no date is fatal. */
  function ValueDoubleDateSav(s: string, savDateParse: string -> Option<real>): (r: Result<Value>)
    ensures r.Err? <==> savDateParse(s).None?
    ensures r.Err? ==> r.fault == NotADate
    ensures r.Ok? ==> r.value == DoubleValue(savDateParse(s).value) && !r.value.isTaggedMissing
  {
    match savDateParse(s)
    case None => Err(NotADate)
    case Some(val) => Ok(Value(DoubleType, false, false, NoTag, DoubleV(val)))
  }

  // ---------------------------------------------------------------------
  // value_double_dta: the first range holding the value tags it
  // ---------------------------------------------------------------------

  /**
   * The search of value_double_dta from range `i` on: the first range that
   * holds `val`, none, or the fault met at a range whose low bound is not a
   * DOUBLE before any range held it.
   */
  function FirstRange(slots: seq<Value>, count: nat, val: real, i: nat): (r: Result<Option<nat>>)
    requires i <= count
    ensures r.Ok? && r.value.Some? ==> i <= r.value.value < count && LoIsDouble(slots, r.value.value) && InRange(slots, r.value.value, val)
    ensures r.Ok? ==> forall j :: i <= j < (if r.value.Some? then r.value.value else count) ==> LoIsDouble(slots, j) && !InRange(slots, j, val)
    ensures r.Err? ==> r.fault == NonDoubleRange
                       && exists j :: i <= j < count && !LoIsDouble(slots, j)
                                      && forall l :: i <= l < j ==> LoIsDouble(slots, l) && !InRange(slots, l, val)
    decreases count - i
  {
    if i == count then Ok(None)
    else if !LoIsDouble(slots, i) then Err(NonDoubleRange)
    else if InRange(slots, i, val) then Ok(Some(i))
    else FirstRange(slots, count, val, i + 1)
  }

  /**
   * value_double_dta: a number held by some range is tagged `'a' + i` for
   * the FIRST such range i, later ranges unread; a number held by none is
   * an untagged DOUBLE; text that is not a number is fatal.
   */
  function DoubleDta(slots: seq<Value>, count: nat, s: string, strtod: string -> Option<real>): (r: Result<Value>)
    ensures strtod(s).None? ==> r == Err(NotANumber)
    ensures r.Err? && strtod(s).Some? ==> r.fault == NonDoubleRange
    ensures r.Ok? ==> strtod(s).Some? && r.value.typ == DoubleType && r.value.v == DoubleV(strtod(s).value)
                      && !r.value.isSystemMissing
    ensures r.Ok? && r.value.isTaggedMissing ==>
              exists k :: 0 <= k < count && InRange(slots, k, strtod(s).value) && r.value.tag == TagFor(k)
                          && forall j :: 0 <= j < k ==> !InRange(slots, j, strtod(s).value)
    ensures r.Ok? && !r.value.isTaggedMissing ==>
              r.value == DoubleValue(strtod(s).value) && forall j :: 0 <= j < count ==> !InRange(slots, j, strtod(s).value)
  {
    match strtod(s)
    case None => Err(NotANumber)
    case Some(val) =>
      match FirstRange(slots, count, val, 0)
      case Err(e) => Err(e)
      case Ok(None) => Ok(DoubleValue(val))
      case Ok(Some(i)) => Ok(Value(DoubleType, false, true, TagFor(i), DoubleV(val)))
  }

  /** value_double_dta */
  method ValueDoubleDta(s: string, strtod: string -> Option<real>, x: Variable) returns (r: Result<Value>)
    ensures r == DoubleDta(x.missingRanges[..], x.missingCount, s, strtod)
  {
    var parsed := strtod(s);
    if parsed.None? {
      return Err(NotANumber);
    }
    var val := parsed.value;
    ghost var slots := x.missingRanges[..];
    var count := x.missingCount;
    var i := 0;
    while i < count
      invariant i <= count
      invariant FirstRange(slots, count, val, i) == FirstRange(slots, count, val, 0)
    {
      var lo := if 2 * i < x.missingRanges.Length then x.missingRanges[2 * i] else ZeroValue;
      var hi := if 2 * i + 1 < x.missingRanges.Length then x.missingRanges[2 * i + 1] else ZeroValue;
      if lo.typ == DoubleType {
        if val >= DoubleOf(lo) && val <= DoubleOf(hi) {
          return Ok(Value(DoubleType, false, true, TagFor(i), DoubleV(val)));
        }
      } else {
        return Err(NonDoubleRange);
      }
      i := i + 1;
    }
    return Ok(Value(DoubleType, false, false, NoTag, DoubleV(val)));
  }

  // ---------------------------------------------------------------------
  // value_int32_date_dta: a stored entry with the same day count is returned
  // ---------------------------------------------------------------------

  /** The first of the entries `i..count` whose INT32 payload is `val`. */
  function FirstDay(slots: seq<Value>, count: nat, val: int, view: Payload -> int, i: nat): (r: Option<nat>)
    requires i <= count
    ensures r.Some? ==> i <= r.value < count && Int32Of(SlotAt(slots, r.value), view) == val
    ensures forall j :: i <= j < (if r.Some? then r.value else count) ==> Int32Of(SlotAt(slots, j), view) != val
    decreases count - i
  {
    if i == count then None
    else if Int32Of(SlotAt(slots, i), view) == val then Some(i)
    else FirstDay(slots, count, val, view, i + 1)
  }

  /**
   * value_int32_date_dta: a `%Y-%m-%d` date whose day count equals a stored
   * entry's is that entry, tag included (the first such); any other date is
   * an untagged INT32 day count; text that is not a date is fatal.
   */
  function Int32DateDta(slots: seq<Value>, count: nat, s: string, view: Payload -> int): (r: Result<Value>)
    ensures r.Err? <==> DtaDays.NumDaysOf(s).None?
    ensures r.Err? ==> r.fault == NotADate
    ensures r.Ok? ==>
              (exists k :: 0 <= k < count && r.value == SlotAt(slots, k)
                           && Some(Int32Of(SlotAt(slots, k), view)) == DtaDays.NumDaysOf(s)
                           && forall j :: 0 <= j < k ==> Some(Int32Of(SlotAt(slots, j), view)) != DtaDays.NumDaysOf(s))
              || (r.value == Present(Int32Type, Int32V(DtaDays.NumDaysOf(s).value))
                  && forall j :: 0 <= j < count ==> Some(Int32Of(SlotAt(slots, j), view)) != DtaDays.NumDaysOf(s))
  {
    match DtaDays.NumDaysOf(s)
    case None => Err(NotADate)
    case Some(days) =>
      match FirstDay(slots, count, days, view, 0)
      case Some(i) => Ok(SlotAt(slots, i))
      case None => Ok(Value(Int32Type, false, false, NoTag, Int32V(days)))
  }

  /** value_int32_date_dta */
  method ValueInt32DateDta(s: string, view: Payload -> int, x: Variable) returns (r: Result<Value>)
    ensures r == Int32DateDta(x.missingRanges[..], x.missingCount, s, view)
  {
    var parsed := DtaDays.NumDays(s);
    if parsed.None? {
      return Err(NotADate);
    }
    var days := parsed.value;
    ghost var slots := x.missingRanges[..];
    var i := 0;
    while i < x.missingCount
      invariant i <= x.missingCount
      invariant FirstDay(slots, x.missingCount, days, view, i) == FirstDay(slots, x.missingCount, days, view, 0)
    {
      var entry := if i < x.missingRanges.Length then x.missingRanges[i] else ZeroValue;
      if Int32Of(entry, view) == days {
        return Ok(entry);
      }
      i := i + 1;
    }
    return Ok(Value(Int32Type, false, false, NoTag, Int32V(days)));
  }

  /**
   * A DTA date column can hold the tagged DOUBLE entries of a missing
   * range. When the platform's `i32_value` reading of such an entry equals
   * the cell's day count and no earlier entry matches, that entry is the
   * cell's value, tag included.
   */
  lemma DoubleEntryMatches(slots: seq<Value>, count: nat, s: string, view: Payload -> int, k: nat, d: real)
    requires k < count && k < |slots| && slots[k] == TaggedDouble(k, d)
    requires DtaDays.NumDaysOf(s) == Some(view(DoubleV(d)))
    requires forall j :: 0 <= j < k ==> Int32Of(SlotAt(slots, j), view) != view(DoubleV(d))
    ensures Int32DateDta(slots, count, s, view) == Ok(TaggedDouble(k, d))
  {
    var r := FirstDay(slots, count, view(DoubleV(d)), view, 0);
    assert Int32Of(SlotAt(slots, k), view) == view(DoubleV(d));
    assert r == Some(k);
  }

  // ---------------------------------------------------------------------
  // produce_csv_column_value
  // ---------------------------------------------------------------------

  /** The output format, column type and date flag combinations produce_csv_column_value handles. */
  predicate Supported(fmt: OutputFormat, typ: ValueType, isDate: bool) {
    ((fmt == Sav || fmt == Dta) && (isDate || typ == DoubleType || typ == StringType))
    || (fmt == Csv && (typ == DoubleType || typ == StringType))
  }

  /**
   * The value of a cell: an empty cell is system-missing whatever the
   * column; string cells pass through verbatim; SAV and CSV values are
   * never tagged; an unsupported combination is fatal, and only it.
   */
  function CellValue(s: string, fmt: OutputFormat, typ: ValueType, isDate: bool, slots: seq<Value>, count: nat, f: Foreign,
                     view: Payload -> int)
    : (r: Result<Value>)
    ensures |s| == 0 ==> r == Ok(ValueSysmiss(typ))
    ensures |s| > 0 && typ == StringType && (fmt == Csv || ((fmt == Sav || fmt == Dta) && !isDate)) ==> r == Ok(ValueString(s))
    ensures (fmt == Sav || fmt == Csv) && |s| > 0 && r.Ok? ==> !r.value.isTaggedMissing
    ensures r == Err(UnsupportedColumnType) <==> |s| > 0 && !Supported(fmt, typ, isDate)
  {
    if |s| == 0 then Ok(ValueSysmiss(typ))
    else if fmt == Sav && isDate then ValueDoubleDateSav(s, f.savDateParse)
    else if fmt == Sav && typ == DoubleType then ValueDoubleRegular(s, f.strtod)
    else if fmt == Sav && typ == StringType then Ok(ValueString(s))
    else if fmt == Dta && isDate then Int32DateDta(slots, count, s, view)
    else if fmt == Dta && typ == DoubleType then DoubleDta(slots, count, s, f.strtod)
    else if fmt == Dta && typ == StringType then Ok(ValueString(s))
    else if fmt == Csv && typ == DoubleType then ValueDoubleRegular(s, f.strtod)
    else if fmt == Csv && typ == StringType then Ok(ValueString(s))
    else Err(UnsupportedColumnType)
  }

  /**
   * produce_csv_column_value: the cell's value goes to value_handler with
   * observation index `rows - 1`, exactly once; a fatal cell makes no call.
   */
  method ProduceCsvColumnValue(c: Csv, s: string) returns (fault: Option<Fault>)
    requires c.columns < |c.variables| && c.columns < |c.isDate|
    modifies c`events
    ensures var x := c.variables[c.columns];
            var r := CellValue(s, c.outputFormat, x.typ, c.isDate[c.columns], x.missingRanges[..], x.missingCount, c.f, c.int32View);
            && (r.Ok? ==> fault.None? && c.events == old(c.events) + [ValueEvent(c.rows - 1, x, r.value)])
            && (r.Err? ==> fault == Some(r.fault) && c.events == old(c.events))
  {
    var x := c.variables[c.columns];
    var isDate := c.isDate[c.columns];
    var r: Result<Value>;
    if |s| == 0 {
      r := Ok(ValueSysmiss(x.typ));
    } else if c.outputFormat == Sav && isDate {
      r := ValueDoubleDateSav(s, c.f.savDateParse);
    } else if c.outputFormat == Sav && x.typ == DoubleType {
      r := ValueDoubleRegular(s, c.f.strtod);
    } else if c.outputFormat == Sav && x.typ == StringType {
      r := Ok(ValueString(s));
    } else if c.outputFormat == Dta && isDate {
      r := ValueInt32DateDta(s, c.int32View, x);
    } else if c.outputFormat == Dta && x.typ == DoubleType {
      r := ValueDoubleDta(s, c.f.strtod, x);
    } else if c.outputFormat == Dta && x.typ == StringType {
      r := Ok(ValueString(s));
    } else if c.outputFormat == Csv && x.typ == DoubleType {
      r := ValueDoubleRegular(s, c.f.strtod);
    } else if c.outputFormat == Csv && x.typ == StringType {
      r := Ok(ValueString(s));
    } else {
      // INT32 without the date flag, or any other type
      return Some(UnsupportedColumnType);
    }
    if r.Err? {
      return Some(r.fault);
    }
    c.events := c.events + [ValueEvent(c.rows - 1, x, r.value)];
    return None;
  }
}
