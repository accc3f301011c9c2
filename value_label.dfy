/**
 * produce_value_label: one value_label_handler call per entry of a
 * column's "categories", its code converted as the output format and the
 * column type require, its label text passed along.
 */
module ValueLabel {
  import opened Types
  import opened JsonMetadata
  import opened FileFormat
  import opened CsvMetadata
  import opened ColumnValue
  import DtaDays
  import Variables

  /** The output format, the column's type and its date flag, which together pick the conversion. */
  datatype Kind = Kind(fmt: OutputFormat, typ: ValueType, isDate: bool)

  // ---------------------------------------------------------------------
  // produce_value_label_double_dta: the LAST range holding the code tags it
  // ---------------------------------------------------------------------

  /** The last of ranges `0..i` whose low bound is a DOUBLE and which holds `val`. */
  function LastRange(slots: seq<Value>, val: real, i: nat): (r: Option<nat>)
    ensures r.Some? ==> r.value < i && LoIsDouble(slots, r.value) && InRange(slots, r.value, val)
    ensures forall j :: (if r.Some? then r.value + 1 else 0) <= j < i ==> !(LoIsDouble(slots, j) && InRange(slots, j, val))
  {
    if i == 0 then None
    else if LoIsDouble(slots, i - 1) && InRange(slots, i - 1, val) then Some(i - 1)
    else LastRange(slots, val, i - 1)
  }

  /** A DOUBLE code, tagged `'a' + k` when range k is the one that tags it. */
  function TaggedBy(val: real, k: Option<nat>): Value {
    match k
    case None => Value(DoubleType, false, false, NoTag, DoubleV(val))
    case Some(i) => Value(DoubleType, false, true, TagFor(i), DoubleV(val))
  }

  /**
   * produce_value_label_double_dta: a code held by some range is tagged
   * `'a' + i` for the LAST such range i; ranges whose low bound is not a
   * DOUBLE are passed over; a code held by none is untagged; a code that is
   * not a number is fatal.
   */
  function DtaDoubleLabel(slots: seq<Value>, count: nat, code: string, strtod: string -> Option<real>): (r: Result<Value>)
    ensures r.Err? <==> strtod(code).None?
    ensures r.Err? ==> r.fault == NotANumber
    ensures r.Ok? ==> r.value.typ == DoubleType && r.value.v == DoubleV(strtod(code).value) && !r.value.isSystemMissing
    ensures r.Ok? && r.value.isTaggedMissing ==>
              exists k :: 0 <= k < count && LoIsDouble(slots, k) && InRange(slots, k, strtod(code).value)
                          && r.value.tag == TagFor(k)
                          && forall j :: k < j < count ==> !(LoIsDouble(slots, j) && InRange(slots, j, strtod(code).value))
    ensures r.Ok? && !r.value.isTaggedMissing ==>
              r.value == Variables.DoubleValue(strtod(code).value)
              && forall j :: 0 <= j < count ==> !(LoIsDouble(slots, j) && InRange(slots, j, strtod(code).value))
  {
    match strtod(code)
    case None => Err(NotANumber)
    case Some(val) => Ok(TaggedBy(val, LastRange(slots, val, count)))
  }

  /**
   * Where at most one range holds a code and every low bound is a DOUBLE,
   * the code's value label carries the same value, tag included, as a cell
   * holding that code: the first and the last matching range coincide.
   */
  lemma LabelMatchesCell(slots: seq<Value>, count: nat, code: string, strtod: string -> Option<real>)
    requires forall j :: 0 <= j < count ==> LoIsDouble(slots, j)
    requires strtod(code).Some? ==>
               forall i, j :: 0 <= i < j < count ==> !(InRange(slots, i, strtod(code).value) && InRange(slots, j, strtod(code).value))
    ensures DtaDoubleLabel(slots, count, code, strtod) == DoubleDta(slots, count, code, strtod)
  {
  }

  /** produce_value_label_double_dta */
  method ValueLabelDoubleDta(code: string, strtod: string -> Option<real>, x: Variables.Variable) returns (r: Result<Value>)
    ensures r == DtaDoubleLabel(x.missingRanges[..], x.missingCount, code, strtod)
  {
    var parsed := strtod(code);
    if parsed.None? {
      return Err(NotANumber);
    }
    var v := parsed.value;
    ghost var slots := x.missingRanges[..];
    var value := Value(DoubleType, false, false, NoTag, DoubleV(v));
    var i := 0;
    while i < x.missingCount
      invariant i <= x.missingCount
      invariant value == TaggedBy(v, LastRange(slots, v, i))
    {
      var loVal := if 2 * i < x.missingRanges.Length then x.missingRanges[2 * i] else Variables.ZeroValue;
      var hiVal := if 2 * i + 1 < x.missingRanges.Length then x.missingRanges[2 * i + 1] else Variables.ZeroValue;
      if loVal.typ == DoubleType {
        var lo := DoubleOf(loVal);
        var hi := DoubleOf(hiVal);
        if v >= lo && v <= hi {
          value := value.(isTaggedMissing := true, tag := TagFor(i));
        }
      }
      i := i + 1;
    }
    return Ok(value);
  }

  // ---------------------------------------------------------------------
  // produce_value_label_int32_date_dta
  // ---------------------------------------------------------------------

  /**
   * produce_value_label_int32_date_dta: the day count of a `%Y-%m-%d` code,
   * tagged `'a' + (k - 1)` when the code is the k-th (from 1) of the
   * column's missing "values", untagged when it is none of them; a code
   * that is not a date is fatal.
   */
  function DtaDateLabel(column: string, code: string, f: Foreign): (r: Result<Value>)
    ensures r.Err? <==> DtaDays.NumDaysOf(code).None?
    ensures r.Err? ==> r.fault == NotADate
    ensures r.Ok? ==> r.value.typ == Int32Type && r.value.v == Int32V(DtaDays.NumDaysOf(code).value) && !r.value.isSystemMissing
    ensures r.Ok? ==> (r.value.isTaggedMissing <==> f.missingStringIdx(column, code) > 0)
    ensures r.Ok? && r.value.isTaggedMissing ==> r.value.tag == TagFor(f.missingStringIdx(column, code) - 1)
  {
    match DtaDays.NumDaysOf(code)
    case None => Err(NotADate)
    case Some(days) =>
      var k := f.missingStringIdx(column, code);
      if k > 0 then Ok(Value(Int32Type, false, true, TagFor(k - 1), Int32V(days)))
      else Ok(Value(Int32Type, false, false, NoTag, Int32V(days)))
  }

  /** A date code written by readstat_dta_days_string labels its own day count. */
  lemma DtaDateLabelRoundTrip(column: string, date: DtaDays.Date, f: Foreign)
    requires DtaDays.ValidDate(date) && 0 <= date.year <= 9999
    ensures DtaDateLabel(column, DtaDays.FormatDate(date), f).Ok?
    ensures DtaDateLabel(column, DtaDays.FormatDate(date), f).value.v == Int32V(DtaDays.DayNumber(date))
  {
    DtaDays.ParseFormatted(date);
  }

  /** produce_value_label_int32_date_dta */
  method ValueLabelInt32DateDta(column: string, code: string, f: Foreign) returns (r: Result<Value>)
    ensures r == DtaDateLabel(column, code, f)
  {
    var days := DtaDays.NumDays(code);
    if days.None? {
      return Err(NotADate);
    }
    var value := Value(Int32Type, false, false, NoTag, Int32V(days.value));
    var missingIdx := f.missingStringIdx(column, code);
    if missingIdx > 0 {
      value := value.(isTaggedMissing := true, tag := TagFor(missingIdx - 1));
    }
    return Ok(value);
  }

  // ---------------------------------------------------------------------
  // One category
  // ---------------------------------------------------------------------

  /** The kinds of column produce_value_label converts codes for, CSV output included. */
  predicate LabelSupported(k: Kind) {
    (k.fmt == Sav && (k.typ == DoubleType || k.typ == StringType))
    || (k.fmt == Dta && ((k.typ == Int32Type && k.isDate) || k.typ == DoubleType))
    || k.fmt == Csv
  }

  function Lift(r: Result<Value>): Result<Option<Value>> {
    match r
    case Err(e) => Err(e)
    case Ok(v) => Ok(Some(v))
  }

  /**
   * The value a category's code stands for: none in CSV output, where no
   * handler is called; SAV values are never tagged and string codes pass
   * verbatim; an unsupported kind of column is fatal, and only it.
   */
  function LabelValue(column: string, code: string, k: Kind, slots: seq<Value>, count: nat, f: Foreign)
    : (r: Result<Option<Value>>)
    ensures k.fmt == Csv ==> r == Ok(None)
    ensures r == Err(UnsupportedColumnType) <==> !LabelSupported(k)
    ensures k.fmt == Sav && r.Ok? ==> r.value.Some? && !r.value.value.isTaggedMissing && !r.value.value.isSystemMissing
    ensures k.fmt == Sav && k.typ == StringType ==> r == Ok(Some(ValueString(code)))
    ensures k.fmt == Dta && k.typ == DoubleType ==> r == Lift(DtaDoubleLabel(slots, count, code, f.strtod))
    ensures k.fmt == Dta && k.typ == Int32Type && k.isDate ==> r == Lift(DtaDateLabel(column, code, f))
  {
    if k.fmt == Sav && k.typ == DoubleType && k.isDate then Lift(ValueDoubleDateSav(code, f.savDateParse))
    else if k.fmt == Sav && k.typ == DoubleType then Lift(ValueDoubleRegular(code, f.strtod))
    else if k.fmt == Sav && k.typ == StringType then Ok(Some(ValueString(code)))
    else if k.fmt == Dta && k.typ == Int32Type && k.isDate then Lift(DtaDateLabel(column, code, f))
    else if k.fmt == Dta && k.typ == DoubleType then Lift(DtaDoubleLabel(slots, count, code, f.strtod))
    else if k.fmt == Csv then Ok(None)
    else Err(UnsupportedColumnType)
  }

  /**
   * The handler call for the category object at `tok`: its "code" and
   * "label" are read into 1024-byte buffers, and a missing one is fatal
   * whatever the output format; the call names the column and passes the
   * label text.
   */
  function CategoryLabel(md: Metadata, column: string, tok: nat, k: Kind, slots: seq<Value>, count: nat, f: Foreign)
    : (r: Result<Option<Event>>)
    ensures (FindProp(md, tok, "code").None? || FindProp(md, tok, "label").None?) ==> r == Err(MissingCodeOrLabel)
    ensures r.Ok? && r.value.Some? ==>
              r.value.value.LabelEvent? && r.value.value.valLabels == column
              && r.value.value.labelText == Clip(md, FindProp(md, tok, "label").value, 1022)
    ensures r.Ok? ==> (r.value.None? <==> k.fmt == Csv)
  {
    var code := FindProp(md, tok, "code");
    var labelTok := FindProp(md, tok, "label");
    if code.None? || labelTok.None? then Err(MissingCodeOrLabel)
    else
      match LabelValue(column, Clip(md, code.value, 1022), k, slots, count, f)
      case Err(e) => Err(e)
      case Ok(None) => Ok(None)
      case Ok(Some(v)) => Ok(Some(LabelEvent(column, v, Clip(md, labelTok.value, 1022))))
  }

  // ---------------------------------------------------------------------
  // produce_value_label
  // ---------------------------------------------------------------------

  /** The handler calls made and the fault met, if any. */
  datatype Emitted = Emitted(events: seq<Event>, fault: Option<Fault>)

  /** The outcomes `rs[i..]` carried out in order: their calls, up to the first fault. */
  function Collect(rs: seq<Result<Option<Event>>>, i: nat): Emitted
    requires i <= |rs|
    decreases |rs| - i
  {
    if i == |rs| then Emitted([], None)
    else
      match rs[i]
      case Err(e) => Emitted([], Some(e))
      case Ok(None) => Collect(rs, i + 1)
      case Ok(Some(ev)) =>
        var rest := Collect(rs, i + 1);
        Emitted([ev] + rest.events, rest.fault)
  }

  /** The outcome of each category object of `cs`. */
  function CategoryResults(md: Metadata, column: string, cs: seq<nat>, k: Kind, slots: seq<Value>, count: nat, f: Foreign)
    : (rs: seq<Result<Option<Event>>>)
    ensures ResultsAre(md, column, cs, rs, k, slots, count, f)
  {
    seq(|cs|, j requires 0 <= j < |cs| => CategoryLabel(md, column, cs[j], k, slots, count, f))
  }

  /** `rs` holds the outcome of each category object of `cs`. */
  predicate ResultsAre(md: Metadata, column: string, cs: seq<nat>, rs: seq<Result<Option<Event>>>,
                       k: Kind, slots: seq<Value>, count: nat, f: Foreign)
  {
    |rs| == |cs|
    && forall j {:trigger CategoryLabel(md, column, cs[j], k, slots, count, f)} ::
         0 <= j < |cs| ==> rs[j] == CategoryLabel(md, column, cs[j], k, slots, count, f)
  }

  /** The calls produce_value_label makes for `column`: none without "categories". */
  function ValueLabels(md: Metadata, column: string, k: Kind, slots: seq<Value>, count: nat, f: Foreign): Emitted {
    match FindVariableProp(md, column, "categories")
    case None => Emitted([], None)
    case Some(cats) => Collect(CategoryResults(md, column, Children(md, cats), k, slots, count, f), 0)
  }

  /**
   * Outcomes that are each one call or a fault: the calls are those of the
   * outcomes before the first fault, one each, in order.
   */
  /** One step of the category loop: the outcome `rs[i]` moves from what is left into what is done. */
  lemma CollectStep(rs: seq<Result<Option<Event>>>, i: nat, done: seq<Event>)
    requires i < |rs| && rs[i].Ok?
    requires Collect(rs, 0) == Emitted(done + Collect(rs, i).events, Collect(rs, i).fault)
    ensures var done' := if rs[i].value.Some? then done + [rs[i].value.value] else done;
            Collect(rs, 0) == Emitted(done' + Collect(rs, i + 1).events, Collect(rs, i + 1).fault)
  {
    if rs[i].value.Some? {
      var ev, rest := rs[i].value.value, Collect(rs, i + 1);
      assert Collect(rs, i).events == [ev] + rest.events;
      assert done + ([ev] + rest.events) == (done + [ev]) + rest.events;
    }
  }

  lemma {:induction false} CollectCalls(rs: seq<Result<Option<Event>>>, i: nat)
    requires i <= |rs|
    requires forall j :: i <= j < |rs| && rs[j].Ok? ==> rs[j].value.Some?
    ensures i + |Collect(rs, i).events| <= |rs|
    ensures forall j :: i <= j < i + |Collect(rs, i).events| ==> rs[j] == Ok(Some(Collect(rs, i).events[j - i]))
    ensures Collect(rs, i).fault.None? ==> i + |Collect(rs, i).events| == |rs|
    ensures Collect(rs, i).fault.Some? ==>
              i + |Collect(rs, i).events| < |rs| && rs[i + |Collect(rs, i).events|] == Err(Collect(rs, i).fault.value)
    decreases |rs| - i
  {
    if i < |rs| && rs[i].Ok? {
      CollectCalls(rs, i + 1);
      var e, rest := Collect(rs, i), Collect(rs, i + 1);
      assert e.events == [rs[i].value.value] + rest.events;
      forall j | i < j < i + |e.events|
        ensures rs[j] == Ok(Some(e.events[j - i]))
      {
        assert e.events[j - i] == rest.events[j - (i + 1)];
      }
    }
  }

  /** Outcomes that call nothing: no call is made, and a fault met is one of theirs. */
  lemma {:induction false} CollectSilent(rs: seq<Result<Option<Event>>>, i: nat)
    requires i <= |rs|
    requires forall j :: i <= j < |rs| && rs[j].Ok? ==> rs[j].value.None?
    ensures Collect(rs, i).events == []
    ensures Collect(rs, i).fault.Some? ==> exists j :: i <= j < |rs| && rs[j] == Err(Collect(rs, i).fault.value)
    decreases |rs| - i
  {
    if i < |rs| && rs[i].Ok? {
      CollectSilent(rs, i + 1);
    }
  }

  /**
   * produce_value_label makes one call per category, in order, each that
   * category's own, until the first fatal category; in CSV output it makes
   * none, and only a missing code or label is fatal there.
   */
  lemma ValueLabelsShape(md: Metadata, column: string, k: Kind, slots: seq<Value>, count: nat, f: Foreign)
    requires FindVariableProp(md, column, "categories").Some?
    ensures var cs := Children(md, FindVariableProp(md, column, "categories").value);
            var e := ValueLabels(md, column, k, slots, count, f);
            && (k.fmt == Csv ==> e.events == [] && (e.fault.Some? ==> e.fault == Some(MissingCodeOrLabel)))
            && (k.fmt != Csv ==> |e.events| <= |cs|)
            && (k.fmt != Csv ==> forall j :: 0 <= j < |e.events| ==>
                                  CategoryLabel(md, column, cs[j], k, slots, count, f) == Ok(Some(e.events[j])))
            && (k.fmt != Csv && e.fault.None? ==> |e.events| == |cs|)
            && (k.fmt != Csv && e.fault.Some? ==>
                  |e.events| < |cs| && CategoryLabel(md, column, cs[|e.events|], k, slots, count, f) == Err(e.fault.value))
  {
    if k.fmt == Csv {
      ShapeCsv(md, column, k, slots, count, f);
    } else {
      ShapeOther(md, column, k, slots, count, f);
    }
  }

  /** CSV output: no label events, and the only fault is a category without code or label. */
  lemma ShapeCsv(md: Metadata, column: string, k: Kind, slots: seq<Value>, count: nat, f: Foreign)
    requires FindVariableProp(md, column, "categories").Some? && k.fmt == Csv
    ensures var e := ValueLabels(md, column, k, slots, count, f);
            e.events == [] && (e.fault.Some? ==> e.fault == Some(MissingCodeOrLabel))
  {
    var cs := Children(md, FindVariableProp(md, column, "categories").value);
    var rs := CategoryResults(md, column, cs, k, slots, count, f);
    forall j | 0 <= j < |rs| && rs[j].Ok?
      ensures rs[j].value.None?
    {
      assert rs[j] == CategoryLabel(md, column, cs[j], k, slots, count, f);
    }
    CollectSilent(rs, 0);
    if Collect(rs, 0).fault.Some? {
      var j :| 0 <= j < |rs| && rs[j] == Err(Collect(rs, 0).fault.value);
      assert rs[j] == CategoryLabel(md, column, cs[j], k, slots, count, f);
    }
  }

  /** SAV and DTA output: one label event per category, in order, up to the first fault. */
  lemma ShapeOther(md: Metadata, column: string, k: Kind, slots: seq<Value>, count: nat, f: Foreign)
    requires FindVariableProp(md, column, "categories").Some? && k.fmt != Csv
    ensures var cs := Children(md, FindVariableProp(md, column, "categories").value);
            var e := ValueLabels(md, column, k, slots, count, f);
            && |e.events| <= |cs|
            && (forall j :: 0 <= j < |e.events| ==> CategoryLabel(md, column, cs[j], k, slots, count, f) == Ok(Some(e.events[j])))
            && (e.fault.None? ==> |e.events| == |cs|)
            && (e.fault.Some? ==>
                  |e.events| < |cs| && CategoryLabel(md, column, cs[|e.events|], k, slots, count, f) == Err(e.fault.value))
  {
    var cs := Children(md, FindVariableProp(md, column, "categories").value);
    var rs := CategoryResults(md, column, cs, k, slots, count, f);
    forall j | 0 <= j < |rs| && rs[j].Ok?
      ensures rs[j].value.Some?
    {
      assert rs[j] == CategoryLabel(md, column, cs[j], k, slots, count, f);
    }
    CollectCalls(rs, 0);
    var e := Collect(rs, 0);
    forall j | 0 <= j < |e.events|
      ensures CategoryLabel(md, column, cs[j], k, slots, count, f) == Ok(Some(e.events[j]))
    {
      assert rs[j] == Ok(Some(e.events[j - 0]));
    }
    if e.fault.Some? {
      assert rs[|e.events|] == CategoryLabel(md, column, cs[|e.events|], k, slots, count, f);
    }
  }


  /** The body of produce_value_label's loop for the i-th category object, at `tok`. */
  method ProduceCategoryLabel(md: Metadata, column: string, tok: nat, k: Kind, x: Variables.Variable, f: Foreign,
                              ghost cs: seq<nat>, ghost rs: seq<Result<Option<Event>>>, ghost i: nat)
    returns (r: Result<Option<Event>>)
    requires ResultsAre(md, column, cs, rs, k, x.missingRanges[..], x.missingCount, f)
    requires i < |cs| && cs[i] == tok
    ensures r == rs[i]
  {
    assert rs[i] == CategoryLabel(md, column, cs[i], k, x.missingRanges[..], x.missingCount, f);
    var code := GetObjectProperty(md, tok, "code", 1024);
    var labelText := GetObjectProperty(md, tok, "label", 1024);
    if code.None? || labelText.None? {
      return Err(MissingCodeOrLabel);
    }
    var value := DecodeCode(column, code.value, k, x, f);
    if value.Err? {
      return Err(value.fault);
    }
    if value.value.None? {
      return Ok(None);
    }
    return Ok(Some(LabelEvent(column, value.value.value, labelText.value)));
  }

  /** The per-format decoding of one category code, as produce_value_label dispatches it. */
  method DecodeCode(column: string, code: string, k: Kind, x: Variables.Variable, f: Foreign)
    returns (r: Result<Option<Value>>)
    ensures r == LabelValue(column, code, k, x.missingRanges[..], x.missingCount, f)
  {
    var value: Result<Value>;
    if k.fmt == Sav && k.typ == DoubleType && k.isDate {
      value := ValueDoubleDateSav(code, f.savDateParse);
    } else if k.fmt == Sav && k.typ == DoubleType {
      value := ValueDoubleRegular(code, f.strtod);
    } else if k.fmt == Sav && k.typ == StringType {
      value := Ok(ValueString(code));
    } else if k.fmt == Dta && k.typ == Int32Type && k.isDate {
      value := ValueLabelInt32DateDta(column, code, f);
    } else if k.fmt == Dta && k.typ == DoubleType {
      value := ValueLabelDoubleDta(code, f.strtod, x);
    } else if k.fmt == Csv {
      return Ok(None);
    } else {
      return Err(UnsupportedColumnType);
    }
    return Lift(value);
  }

  /** The loop of produce_value_label over the category objects of `cats`. */
  method ProduceCategoryLabels(c: Csv, column: string, cats: nat, k: Kind, x: Variables.Variable, ghost rs: seq<Result<Option<Event>>>)
    returns (fault: Option<Fault>)
    requires ResultsAre(c.md, column, Children(c.md, cats), rs, k, x.missingRanges[..], x.missingCount, c.f)
    modifies c`events
    ensures c.events == old(c.events) + Collect(rs, 0).events && fault == Collect(rs, 0).fault
  {
    ghost var cs := Children(c.md, cats);
    ghost var done: seq<Event> := [];
    var size := Tok(c.md, cats).size;
    var j := 1;
    var i := 0;
    while i < size
      invariant 0 <= i <= size == |cs| == |rs|
      invariant i < size ==> cs[i] == cats + j
      invariant c.events == old(c.events) + done
      invariant Collect(rs, 0) == Emitted(done + Collect(rs, i).events, Collect(rs, i).fault)
    {
      var tok := cats + j;
      var r := ProduceCategoryLabel(c.md, column, tok, k, x, c.f, cs, rs, i);
      if r.Err? {
        return Some(r.fault);
      }
      CollectStep(rs, i, done);
      if r.value.Some? {
        c.events := c.events + [r.value.value];
        done := done + [r.value.value];
      }
      var n := SlurpObject(c.md, tok);
      if i + 1 < size {
        ChildStartsAdjacent(c.md, cats + 1, size, i);
      }
      j := j + n;
      i := i + 1;
    }
    return None;
  }

  /**
   * produce_value_label: the handler calls for the column's categories,
   * in order, and the fault that stops them, if any.
   */
  method ProduceValueLabel(c: Csv, column: string, coltype: ValueType) returns (fault: Option<Fault>)
    requires c.columns < |c.variables| && c.columns < |c.isDate|
    modifies c`events
    ensures var x := c.variables[c.columns];
            var e := ValueLabels(c.md, column, Kind(c.outputFormat, coltype, c.isDate[c.columns]),
                                 x.missingRanges[..], x.missingCount, c.f);
            c.events == old(c.events) + e.events && fault == e.fault
  {
    var categories := FindVariableProperty(c.md, column, "categories");
    if categories.None? {
      return None;
    }
    var x := c.variables[c.columns];
    var k := Kind(c.outputFormat, coltype, c.isDate[c.columns]);
    ghost var rs := CategoryResults(c.md, column, Children(c.md, categories.value), k, x.missingRanges[..], x.missingCount, c.f);
    fault := ProduceCategoryLabels(c, column, categories.value, k, x, rs);
  }
}
