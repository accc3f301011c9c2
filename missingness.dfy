/**
 * Building a column's missing-value table from the "missing" object of its
 * variable in the JSON metadata. The table is specified by a Plan: the
 * additions the C code makes, in order, and the fault that stops it (an
 * `exit(EXIT_FAILURE)` there), if any. The methods make the additions in
 * place and are proved to leave exactly the table the plan describes.
 */
module Missingness {
  import opened Types
  import opened JsonMetadata
  import opened Variables
  import opened Plans
  import opened FileFormat
  import DtaDays

  // ---------------------------------------------------------------------
  // The parsers: `char buf[255]` filled by snprintf(buf, 254, ...)
  // ---------------------------------------------------------------------

  /** get_double_missing: strtod of the token's text; text that is not a number is fatal. */
  function DoubleMissing(md: Metadata, tok: nat, strtod: string -> Option<real>): (r: Result<real>)
    ensures r.Err? <==> strtod(Clip(md, tok, 253)).None?
    ensures r.Err? ==> r.fault == NotANumber
  {
    match strtod(Clip(md, tok, 253))
    case None => Err(NotANumber)
    case Some(d) => Ok(d)
  }

  /** get_double_date_missing_sav: readstat_sav_date_parse of the token's text. */
  function SavDateMissing(md: Metadata, tok: nat, savDateParse: string -> Option<real>): (r: Result<real>)
    ensures r.Err? <==> savDateParse(Clip(md, tok, 253)).None?
    ensures r.Err? ==> r.fault == NotADate
  {
    match savDateParse(Clip(md, tok, 253))
    case None => Err(NotADate)
    case Some(d) => Ok(d)
  }

  /**
   * get_int32_date_missing_dta: the day count of a `%Y-%m-%d` text as an
   * INT32 tagged `'a' + idx`; text that is not a date is fatal.
   */
  function Int32DateMissingDta(md: Metadata, tok: nat, idx: nat): Result<Value>
  {
    match DtaDays.NumDaysOf(Clip(md, tok, 253))
    case None => Err(NotADate)
    case Some(days) => Ok(Value(Int32Type, false, true, TagFor(idx), Int32V(days)))
  }

  /**
   * A missing date written as `%Y-%m-%d` by readstat_dta_days_string reads
   * back as its own day count, tagged `'a' + idx`.
   */
  lemma DtaDateMissingRoundTrip(md: Metadata, tok: nat, idx: nat, date: DtaDays.Date)
    requires DtaDays.ValidDate(date) && 0 <= date.year <= 9999
    requires Clip(md, tok, 253) == DtaDays.FormatDate(date)
    ensures Int32DateMissingDta(md, tok, idx) == Ok(Value(Int32Type, false, true, TagFor(idx), Int32V(DtaDays.DayNumber(date))))
  {
    DtaDays.ParseFormatted(date);
  }

  // ---------------------------------------------------------------------
  // dta_add_missing
  // ---------------------------------------------------------------------

  /**
   * dta_add_missing: the same DOUBLE, tagged `'a' + count`, into slots
   * 2 * count and 2 * count + 1; the count grows by one; the tag is returned.
   */
  method DtaAddMissing(x: Variable, d: real) returns (tag: char)
    requires 2 * x.missingCount + 1 < x.missingRanges.Length
    modifies x`missingCount, x.missingRanges
    ensures tag == TagFor(old(x.missingCount))
    ensures x.missingRanges[..] == Apply(old(x.missingRanges[..]), old(x.missingCount), Tagged(d))
    ensures x.missingCount == old(x.missingCount) + 1
  {
    var idx := x.missingCount;
    tag := TagFor(idx);
    var value := Value(DoubleType, false, true, tag, DoubleV(d));
    x.missingRanges[idx * 2] := value;
    x.missingRanges[idx * 2 + 1] := value;
    x.missingCount := x.missingCount + 1;
  }

  // ---------------------------------------------------------------------
  // DISCRETE
  // ---------------------------------------------------------------------

  /**
   * The addition for the `i`-th DISCRETE value: a SAV date or any DOUBLE
   * becomes a (v, v) pair, a DTA date one slot tagged `'a' + i`; any other
   * column type is fatal.
   */
  function DiscreteAdd(md: Metadata, tok: nat, i: nat, fmt: OutputFormat, typ: ValueType, isDate: bool, f: Foreign): Result<Add> {
    if fmt == Sav && typ == DoubleType && isDate then
      match SavDateMissing(md, tok, f.savDateParse)
      case Err(e) => Err(e)
      case Ok(d) => Ok(Range(d, d))
    else if fmt == Dta && typ == Int32Type && isDate then
      match Int32DateMissingDta(md, tok, i)
      case Err(e) => Err(e)
      case Ok(v) => Ok(Slot(v))
    else if typ == DoubleType then
      match DoubleMissing(md, tok, f.strtod)
      case Err(e) => Err(e)
      case Ok(d) => Ok(Range(d, d))
    else Err(UnsupportedColumnType)
  }

  /** One plan per DISCRETE value, in document order: the value's addition or the fault it meets. */
  function DiscreteSteps(md: Metadata, cs: seq<nat>, fmt: OutputFormat, typ: ValueType, isDate: bool, f: Foreign): (ps: seq<Plan>)
    ensures DiscreteStepsAre(md, cs, ps, fmt, typ, isDate, f)
  {
    var rs := DiscreteResults(md, cs, fmt, typ, isDate, f);
    seq(|cs|, k requires 0 <= k < |cs| => One(rs[k]))
  }

  /** The result of each DISCRETE value, the k-th for `cs[k]`. */
  function DiscreteResults(md: Metadata, cs: seq<nat>, fmt: OutputFormat, typ: ValueType, isDate: bool, f: Foreign)
    : (rs: seq<Result<Add>>)
    ensures |rs| == |cs|
  {
    seq(|cs|, k requires 0 <= k < |cs| => DiscreteAdd(md, cs[k], k, fmt, typ, isDate, f))
  }

  /**
   * `ps[k]` is the plan of the k-th DISCRETE value `cs[k]`. The trigger keeps
   * the additions' definitions out of the loops that only pass `ps` along.
   */
  predicate DiscreteStepsAre(md: Metadata, cs: seq<nat>, ps: seq<Plan>, fmt: OutputFormat, typ: ValueType, isDate: bool, f: Foreign) {
    |ps| == |cs| &&
    forall k {:trigger DiscreteAdd(md, cs[k], k, fmt, typ, isDate, f)} ::
      0 <= k < |cs| ==> ps[k] == One(DiscreteAdd(md, cs[k], k, fmt, typ, isDate, f))
  }

  /** produce_missingness_discrete: "values" is required; its values are added in order up to the first fault. */
  function DiscretePlan(md: Metadata, missing: nat, fmt: OutputFormat, typ: ValueType, isDate: bool, f: Foreign): Plan {
    match FindProp(md, missing, "values")
    case None => Fail(DiscreteWithoutValues)
    case Some(values) => Chain(DiscreteSteps(md, Children(md, values), fmt, typ, isDate, f), 0)
  }

  /** One pass of the loop of produce_missingness_discrete: the value `tok`, the `i`-th of the list. */
  method AddDiscreteValue(md: Metadata, tok: nat, i: nat, fmt: OutputFormat, isDate: bool, f: Foreign, x: Variable,
                          ghost cs: seq<nat>, ghost ps: seq<Plan>)
    returns (fault: Option<Fault>)
    requires DiscreteStepsAre(md, cs, ps, fmt, x.typ, isDate, f) && i < |cs| && cs[i] == tok
    requires Fits(x.missingCount, ps[i].adds, x.missingRanges.Length)
    modifies x`missingCount, x.missingRanges
    ensures Outcome(x, old(x.missingRanges[..]), old(x.missingCount), ps[i], fault)
  {
    ghost var r := DiscreteAdd(md, tok, i, fmt, x.typ, isDate, f);
    assert ps[i] == One(r);
    OneFits(x.missingCount, r, x.missingRanges.Length);
    ghost var s0, c0 := x.missingRanges[..], x.missingCount;
    if fmt == Sav && x.typ == DoubleType && isDate {
      var d := SavDateMissing(md, tok, f.savDateParse);
      if d.Err? {
        return Some(d.fault);
      }
      AddMissingDoubleRange(x, d.value, d.value);
    } else if fmt == Dta && x.typ == Int32Type && isDate {
      var v := Int32DateMissingDta(md, tok, i);
      if v.Err? {
        return Some(v.fault);
      }
      x.missingRanges[x.missingCount] := v.value;
      x.missingCount := x.missingCount + 1;
    } else if x.typ == DoubleType {
      var d := DoubleMissing(md, tok, f.strtod);
      if d.Err? {
        return Some(d.fault);
      }
      AddMissingDoubleRange(x, d.value, d.value);
    } else {
      return Some(UnsupportedColumnType);
    }
    ApplyAllOne(s0, c0, r.value);
    return None;
  }

  /** The loop of produce_missingness_discrete over the values `vals`, one plan per value. */
  method AddDiscreteValues(md: Metadata, vals: nat, fmt: OutputFormat, isDate: bool, f: Foreign, x: Variable, ghost ps: seq<Plan>)
    returns (fault: Option<Fault>)
    requires DiscreteStepsAre(md, Children(md, vals), ps, fmt, x.typ, isDate, f)
    requires Room(ps, 0, x.missingCount, x.missingRanges.Length)
    modifies x`missingCount, x.missingRanges
    ensures State(x.missingRanges[..], x.missingCount, fault) == Run(ps, 0, old(x.missingRanges[..]), old(x.missingCount))
  {
    ghost var cs := Children(md, vals);
    ghost var whole := Run(ps, 0, x.missingRanges[..], x.missingCount);
    var size := Tok(md, vals).size;
    var j := 1;
    var i := 0;
    while i < size
      invariant 0 <= i <= size == |cs| == |ps|
      invariant i < size ==> cs[i] == vals + j
      invariant Run(ps, i, x.missingRanges[..], x.missingCount) == whole
      invariant Room(ps, i, x.missingCount, x.missingRanges.Length)
    {
      var tok := vals + j;
      fault := AddDiscreteValue(md, tok, i, fmt, isDate, f, x, cs, ps);
      if fault.Some? {
        return;
      }
      var n := SlurpObject(md, tok);
      if i + 1 < size {
        ChildStartsAdjacent(md, vals + 1, size, i);
      }
      j := j + n;
      i := i + 1;
    }
    return None;
  }

  /** produce_missingness_discrete */
  method ProduceMissingnessDiscrete(md: Metadata, missing: nat, fmt: OutputFormat, isDate: bool, f: Foreign, x: Variable)
    returns (fault: Option<Fault>)
    requires Fits(x.missingCount, DiscretePlan(md, missing, fmt, x.typ, isDate, f).adds, x.missingRanges.Length)
    modifies x`missingCount, x.missingRanges
    ensures Outcome(x, old(x.missingRanges[..]), old(x.missingCount), DiscretePlan(md, missing, fmt, x.typ, isDate, f), fault)
  {
    var values := FindObjectProperty(md, missing, "values");
    if values.None? {
      return Some(DiscreteWithoutValues);
    }
    ghost var ps := DiscreteSteps(md, Children(md, values.value), fmt, x.typ, isDate, f);
    ghost var s0, c0 := x.missingRanges[..], x.missingCount;
    RoomChain(ps, 0, c0, x.missingRanges.Length);
    RunChain(ps, 0, s0, c0);
    fault := AddDiscreteValues(md, values.value, fmt, isDate, f, x, ps);
  }

  /**
   * The chained DISCRETE steps: the k-th addition is the k-th value's, the
   * run covers every value unless a value fails, and then it stops there
   * with that value's fault.
   */
  lemma DiscreteChain(md: Metadata, cs: seq<nat>, fmt: OutputFormat, typ: ValueType, isDate: bool, f: Foreign)
    ensures var p := Chain(DiscreteSteps(md, cs, fmt, typ, isDate, f), 0);
            && |p.adds| <= |cs|
            && (forall k :: 0 <= k < |p.adds| ==> DiscreteAdd(md, cs[k], k, fmt, typ, isDate, f) == Ok(p.adds[k]))
            && (p.fault.None? ==> |p.adds| == |cs|)
            && (p.fault.Some? ==>
                  |p.adds| < |cs| && DiscreteAdd(md, cs[|p.adds|], |p.adds|, fmt, typ, isDate, f) == Err(p.fault.value))
  {
    var ps := DiscreteSteps(md, cs, fmt, typ, isDate, f);
    var rs := DiscreteResults(md, cs, fmt, typ, isDate, f);
    ChainOfOnes(ps, rs);
    var p := Chain(ps, 0);
    forall k | 0 <= k < |p.adds| ensures DiscreteAdd(md, cs[k], k, fmt, typ, isDate, f) == Ok(p.adds[k]) {
      assert rs[k] == Ok(p.adds[k]);
    }
    if p.fault.Some? {
      assert rs[|p.adds|] == Err(p.fault.value);
    }
  }

  /** The DOUBLE a missing-value text stands for: a SAV date when `savDate`, a number otherwise. */
  function SavBound(md: Metadata, tok: nat, savDate: bool, f: Foreign): (r: Result<real>)
    ensures savDate ==> r == SavDateMissing(md, tok, f.savDateParse)
    ensures !savDate ==> r == DoubleMissing(md, tok, f.strtod)
  {
    if savDate then SavDateMissing(md, tok, f.savDateParse) else DoubleMissing(md, tok, f.strtod)
  }

  /**
   * DISCRETE on a DTA date column: the k-th entry is the k-th value, one
   * slot tagged `'a' + k` holding the day count of its text; the run stops,
   * with NotADate, at the first text that is not a `%Y-%m-%d` date, and
   * otherwise covers every value. Without "values" nothing is added.
   */
  lemma DiscreteDtaDates(md: Metadata, missing: nat, f: Foreign)
    ensures FindProp(md, missing, "values").None? ==> DiscretePlan(md, missing, Dta, Int32Type, true, f) == Fail(DiscreteWithoutValues)
    ensures FindProp(md, missing, "values").Some? ==>
              var cs := Children(md, FindProp(md, missing, "values").value);
              var p := DiscretePlan(md, missing, Dta, Int32Type, true, f);
              && |p.adds| <= |cs|
              && (forall k :: 0 <= k < |p.adds| ==>
                    DtaDays.NumDaysOf(Clip(md, cs[k], 253)).Some?
                    && p.adds[k] == Slot(Value(Int32Type, false, true, TagFor(k), Int32V(DtaDays.NumDaysOf(Clip(md, cs[k], 253)).value))))
              && (p.fault.None? ==> |p.adds| == |cs|)
              && (p.fault.Some? ==> |p.adds| < |cs| && p.fault == Some(NotADate) && DtaDays.NumDaysOf(Clip(md, cs[|p.adds|], 253)).None?)
  {
    if FindProp(md, missing, "values").Some? {
      var cs := Children(md, FindProp(md, missing, "values").value);
      var p := Chain(DiscreteSteps(md, cs, Dta, Int32Type, true, f), 0);
      DiscreteChain(md, cs, Dta, Int32Type, true, f);
      forall k | 0 <= k < |p.adds|
        ensures DtaDays.NumDaysOf(Clip(md, cs[k], 253)).Some?
        ensures p.adds[k] == Slot(Value(Int32Type, false, true, TagFor(k), Int32V(DtaDays.NumDaysOf(Clip(md, cs[k], 253)).value)))
      {
        assert DiscreteAdd(md, cs[k], k, Dta, Int32Type, true, f) == Ok(p.adds[k]);
      }
      if p.fault.Some? {
        var n := |p.adds|;
        assert DiscreteAdd(md, cs[n], n, Dta, Int32Type, true, f) == Err(p.fault.value);
      }
    }
  }

  /**
   * DISCRETE on a DOUBLE column (a SAV date, or any DOUBLE otherwise): the
   * k-th entry is the pair (v, v) for the k-th value v; the run stops at the
   * first text that does not parse, with that fault, and otherwise covers
   * every value.
   */
  lemma DiscreteDoublePairs(md: Metadata, missing: nat, fmt: OutputFormat, isDate: bool, f: Foreign)
    ensures FindProp(md, missing, "values").None? ==> DiscretePlan(md, missing, fmt, DoubleType, isDate, f) == Fail(DiscreteWithoutValues)
    ensures FindProp(md, missing, "values").Some? ==>
              var cs := Children(md, FindProp(md, missing, "values").value);
              var p := DiscretePlan(md, missing, fmt, DoubleType, isDate, f);
              && |p.adds| <= |cs|
              && (forall k :: 0 <= k < |p.adds| ==>
                    SavBound(md, cs[k], fmt == Sav && isDate, f).Ok?
                    && p.adds[k] == Range(SavBound(md, cs[k], fmt == Sav && isDate, f).value, SavBound(md, cs[k], fmt == Sav && isDate, f).value))
              && (p.fault.None? ==> |p.adds| == |cs|)
              && (p.fault.Some? ==> |p.adds| < |cs| && SavBound(md, cs[|p.adds|], fmt == Sav && isDate, f) == Err(p.fault.value))
  {
    if FindProp(md, missing, "values").Some? {
      var cs := Children(md, FindProp(md, missing, "values").value);
      var p := Chain(DiscreteSteps(md, cs, fmt, DoubleType, isDate, f), 0);
      DiscreteChain(md, cs, fmt, DoubleType, isDate, f);
      forall k | 0 <= k < |p.adds|
        ensures SavBound(md, cs[k], fmt == Sav && isDate, f).Ok?
        ensures p.adds[k] == Range(SavBound(md, cs[k], fmt == Sav && isDate, f).value, SavBound(md, cs[k], fmt == Sav && isDate, f).value)
      {
        assert DiscreteAdd(md, cs[k], k, fmt, DoubleType, isDate, f) == Ok(p.adds[k]);
      }
      if p.fault.Some? {
        var n := |p.adds|;
        assert DiscreteAdd(md, cs[n], n, fmt, DoubleType, isDate, f) == Err(p.fault.value);
      }
    }
  }

  /** DISCRETE on a column that is neither DOUBLE nor a DTA INT32 date stops at its first value. */
  lemma DiscreteUnsupported(md: Metadata, missing: nat, fmt: OutputFormat, typ: ValueType, isDate: bool, f: Foreign)
    requires typ != DoubleType && !(fmt == Dta && typ == Int32Type && isDate)
    ensures DiscretePlan(md, missing, fmt, typ, isDate, f).adds == []
    ensures var values := FindProp(md, missing, "values");
            DiscretePlan(md, missing, fmt, typ, isDate, f).fault
            == if values.None? then Some(DiscreteWithoutValues)
               else if Tok(md, values.value).size == 0 then None
               else Some(UnsupportedColumnType)
  {
    var values := FindProp(md, missing, "values");
    if values.Some? {
      var cs := Children(md, values.value);
      var ps := DiscreteSteps(md, cs, fmt, typ, isDate, f);
      if |cs| > 0 {
        assert ps[0] == One(DiscreteAdd(md, cs[0], 0, fmt, typ, isDate, f));
      }
    }
  }

  // ---------------------------------------------------------------------
  // RANGE for DTA output: one tagged pair per admitted category code
  // ---------------------------------------------------------------------

  /** The low..high test of one category code: both bounds are parsed on every pass, inclusive on both ends. */
  function RangeCode(md: Metadata, low: Option<nat>, high: Option<nat>, cod: real, strtod: string -> Option<real>): Plan {
    if low.Some? && high.Some? then
      match DoubleMissing(md, low.value, strtod)
      case Err(e) => Fail(e)
      case Ok(lo) =>
        match DoubleMissing(md, high.value, strtod)
        case Err(e) => Fail(e)
        case Ok(hi) => if lo <= cod && cod <= hi then Plan([Tagged(cod)], None) else Done()
    else Done()
  }

  /** The discrete-value test of one category code. */
  function DiscreteCode(md: Metadata, discrete: Option<nat>, cod: real, strtod: string -> Option<real>): Plan {
    if discrete.Some? then
      match DoubleMissing(md, discrete.value, strtod)
      case Err(e) => Fail(e)
      case Ok(v) => if cod == v then Plan([Tagged(cod)], None) else Done()
    else Done()
  }

  /** One pass of the category loop: "code" and "label" are required, the code must be a number. */
  function CategoryPlan(md: Metadata, tok: nat, low: Option<nat>, high: Option<nat>, discrete: Option<nat>,
                        strtod: string -> Option<real>): Plan {
    var code := FindProp(md, tok, "code");
    if code.None? || FindProp(md, tok, "label").None? then Fail(MissingCodeOrLabel)
    else
      match DoubleMissing(md, code.value, strtod)
      case Err(e) => Fail(e)
      case Ok(cod) => Seq(RangeCode(md, low, high, cod, strtod), DiscreteCode(md, discrete, cod, strtod))
  }

  /** The code `d` lies in [low, high] or equals the discrete value (each bound present and numeric). */
  predicate Admitted(md: Metadata, low: Option<nat>, high: Option<nat>, discrete: Option<nat>,
                     strtod: string -> Option<real>, d: real) {
    (low.Some? && high.Some? && DoubleMissing(md, low.value, strtod).Ok? && DoubleMissing(md, high.value, strtod).Ok?
     && DoubleMissing(md, low.value, strtod).value <= d <= DoubleMissing(md, high.value, strtod).value)
    || (discrete.Some? && DoubleMissing(md, discrete.value, strtod) == Ok(d))
  }

  /**
   * A category adds its own code, tagged, at most twice: once if it lies in
   * [low, high] and once more if it equals the discrete value; a category
   * that passes without fault adds something exactly when its code is
   * admitted. Without "code" or "label" it fails before adding anything.
   */
  lemma CategoryAdmitted(md: Metadata, tok: nat, low: Option<nat>, high: Option<nat>, discrete: Option<nat>,
                         strtod: string -> Option<real>)
    ensures var p := CategoryPlan(md, tok, low, high, discrete, strtod);
            && |p.adds| <= 2
            && (FindProp(md, tok, "code").None? || FindProp(md, tok, "label").None? ==> p == Fail(MissingCodeOrLabel))
            && (|p.adds| > 0 || p.fault.None? ==>
                  FindProp(md, tok, "code").Some? && DoubleMissing(md, FindProp(md, tok, "code").value, strtod).Ok?)
            && (forall k :: 0 <= k < |p.adds| ==>
                  p.adds[k] == Tagged(DoubleMissing(md, FindProp(md, tok, "code").value, strtod).value)
                  && Admitted(md, low, high, discrete, strtod, p.adds[k].d))
            && (p.fault.None? ==>
                  (|p.adds| > 0 <==> Admitted(md, low, high, discrete, strtod, DoubleMissing(md, FindProp(md, tok, "code").value, strtod).value)))
  {
  }

  /** One plan per category, in document order. */
  function CategorySteps(md: Metadata, cs: seq<nat>, low: Option<nat>, high: Option<nat>, discrete: Option<nat>,
                         strtod: string -> Option<real>): (ps: seq<Plan>)
    ensures CategoryStepsAre(md, cs, ps, low, high, discrete, strtod)
  {
    seq(|cs|, k requires 0 <= k < |cs| => CategoryPlan(md, cs[k], low, high, discrete, strtod))
  }

  /** `ps[k]` is the plan of the k-th category `cs[k]`; the trigger keeps the plans' definitions out of the loop. */
  predicate CategoryStepsAre(md: Metadata, cs: seq<nat>, ps: seq<Plan>, low: Option<nat>, high: Option<nat>,
                             discrete: Option<nat>, strtod: string -> Option<real>) {
    |ps| == |cs| &&
    forall k {:trigger CategoryPlan(md, cs[k], low, high, discrete, strtod)} ::
      0 <= k < |cs| ==> ps[k] == CategoryPlan(md, cs[k], low, high, discrete, strtod)
  }

  /** produce_missingness_range_dta */
  function RangeDtaPlan(md: Metadata, column: string, missing: nat, strtod: string -> Option<real>): Plan {
    var low := FindProp(md, missing, "low");
    var high := FindProp(md, missing, "high");
    var discrete := FindProp(md, missing, "discrete-value");
    var categories := FindVariableProp(md, column, "categories");
    if categories.None? then
      if low.Some? || high.Some? || discrete.Some? then Fail(RangeWithoutCategories) else Done()
    else if low.Some? && high.None? then Fail(LowWithoutHigh)
    else if high.Some? && low.None? then Fail(HighWithoutLow)
    else Chain(CategorySteps(md, Children(md, categories.value), low, high, discrete, strtod), 0)
  }

  /** A tagged pair for the code `cod` when the test `p` admits it. */
  method AddIfAdmitted(x: Variable, cod: real, admit: bool, ghost p: Plan)
    requires p == (if admit then Plan([Tagged(cod)], None) else Done())
    requires Fits(x.missingCount, p.adds, x.missingRanges.Length)
    modifies x`missingCount, x.missingRanges
    ensures Outcome(x, old(x.missingRanges[..]), old(x.missingCount), p, None)
  {
    if admit {
      ghost var s0, c0 := x.missingRanges[..], x.missingCount;
      assert p.adds[0] == Tagged(cod);
      assert NeedAt(c0, p.adds, 0) <= x.missingRanges.Length;
      var tag := DtaAddMissing(x, cod);
      ApplyAllOne(s0, c0, Tagged(cod));
    }
  }

  /** One pass of the loop of produce_missingness_range_dta: the category `tok`, the `i`-th of the list. */
  method AddForCategory(md: Metadata, tok: nat, low: Option<nat>, high: Option<nat>, discrete: Option<nat>,
                        strtod: string -> Option<real>, x: Variable, ghost i: nat, ghost cs: seq<nat>, ghost ps: seq<Plan>)
    returns (fault: Option<Fault>)
    requires CategoryStepsAre(md, cs, ps, low, high, discrete, strtod) && i < |cs| && cs[i] == tok
    requires Fits(x.missingCount, ps[i].adds, x.missingRanges.Length)
    modifies x`missingCount, x.missingRanges
    ensures Outcome(x, old(x.missingRanges[..]), old(x.missingCount), ps[i], fault)
  {
    assert ps[i] == CategoryPlan(md, tok, low, high, discrete, strtod);
    var code := FindObjectProperty(md, tok, "code");
    var labelText := GetObjectProperty(md, tok, "label", 1024);
    if code.None? || labelText.None? {
      return Some(MissingCodeOrLabel);
    }
    var cod := DoubleMissing(md, code.value, strtod);
    if cod.Err? {
      return Some(cod.fault);
    }
    fault := AddForCode(md, cod.value, low, high, discrete, strtod, x);
  }

  /** The low..high test, then the discrete-value test, of the category code `cod`. */
  method AddForCode(md: Metadata, cod: real, low: Option<nat>, high: Option<nat>, discrete: Option<nat>,
                    strtod: string -> Option<real>, x: Variable)
    returns (fault: Option<Fault>)
    requires Fits(x.missingCount, Seq(RangeCode(md, low, high, cod, strtod), DiscreteCode(md, discrete, cod, strtod)).adds,
                  x.missingRanges.Length)
    modifies x`missingCount, x.missingRanges
    ensures Outcome(x, old(x.missingRanges[..]), old(x.missingCount),
                    Seq(RangeCode(md, low, high, cod, strtod), DiscreteCode(md, discrete, cod, strtod)), fault)
  {
    ghost var rp := RangeCode(md, low, high, cod, strtod);
    ghost var dp := DiscreteCode(md, discrete, cod, strtod);
    ghost var s0, c0 := x.missingRanges[..], x.missingCount;
    SeqFitsFirst(c0, rp, dp, |s0|);
    fault := AddRangeCode(md, cod, low, high, strtod, x);
    if fault.Some? {
      return;
    }
    SeqSplit(s0, c0, rp, dp);
    ghost var s1, c1 := x.missingRanges[..], x.missingCount;
    fault := AddDiscreteCode(md, cod, discrete, strtod, x);
    OutcomeSeq(x, s0, c0, rp, dp, s1, c1, fault);
  }

  /** The low..high test of the category code `cod`. */
  method AddRangeCode(md: Metadata, cod: real, low: Option<nat>, high: Option<nat>, strtod: string -> Option<real>, x: Variable)
    returns (fault: Option<Fault>)
    requires Fits(x.missingCount, RangeCode(md, low, high, cod, strtod).adds, x.missingRanges.Length)
    modifies x`missingCount, x.missingRanges
    ensures Outcome(x, old(x.missingRanges[..]), old(x.missingCount), RangeCode(md, low, high, cod, strtod), fault)
  {
    if low.Some? && high.Some? {
      var lo := DoubleMissing(md, low.value, strtod);
      if lo.Err? {
        return Some(lo.fault);
      }
      var hi := DoubleMissing(md, high.value, strtod);
      if hi.Err? {
        return Some(hi.fault);
      }
      AddIfAdmitted(x, cod, cod >= lo.value && cod <= hi.value, RangeCode(md, low, high, cod, strtod));
    }
    return None;
  }

  /** The discrete-value test of the category code `cod`. */
  method AddDiscreteCode(md: Metadata, cod: real, discrete: Option<nat>, strtod: string -> Option<real>, x: Variable)
    returns (fault: Option<Fault>)
    requires Fits(x.missingCount, DiscreteCode(md, discrete, cod, strtod).adds, x.missingRanges.Length)
    modifies x`missingCount, x.missingRanges
    ensures Outcome(x, old(x.missingRanges[..]), old(x.missingCount), DiscreteCode(md, discrete, cod, strtod), fault)
  {
    if discrete.Some? {
      var v := DoubleMissing(md, discrete.value, strtod);
      if v.Err? {
        return Some(v.fault);
      }
      AddIfAdmitted(x, cod, cod == v.value, DiscreteCode(md, discrete, cod, strtod));
    }
    return None;
  }

  /** The loop of produce_missingness_range_dta over the categories `cats`, one plan per category. */
  method AddForCategories(md: Metadata, cats: nat, low: Option<nat>, high: Option<nat>, discrete: Option<nat>,
                          strtod: string -> Option<real>, x: Variable, ghost ps: seq<Plan>)
    returns (fault: Option<Fault>)
    requires CategoryStepsAre(md, Children(md, cats), ps, low, high, discrete, strtod)
    requires Room(ps, 0, x.missingCount, x.missingRanges.Length)
    modifies x`missingCount, x.missingRanges
    ensures State(x.missingRanges[..], x.missingCount, fault) == Run(ps, 0, old(x.missingRanges[..]), old(x.missingCount))
  {
    ghost var cs := Children(md, cats);
    ghost var whole := Run(ps, 0, x.missingRanges[..], x.missingCount);
    var size := Tok(md, cats).size;
    var j := 1;
    var i := 0;
    while i < size
      invariant 0 <= i <= size == |cs| == |ps|
      invariant i < size ==> cs[i] == cats + j
      invariant Run(ps, i, x.missingRanges[..], x.missingCount) == whole
      invariant Room(ps, i, x.missingCount, x.missingRanges.Length)
    {
      var tok := cats + j;
      fault := AddForCategory(md, tok, low, high, discrete, strtod, x, i, cs, ps);
      if fault.Some? {
        return;
      }
      var n := SlurpObject(md, tok);
      if i + 1 < size {
        ChildStartsAdjacent(md, cats + 1, size, i);
      }
      j := j + n;
      i := i + 1;
    }
    return None;
  }

  /** produce_missingness_range_dta */
  method ProduceMissingnessRangeDta(md: Metadata, column: string, missing: nat, strtod: string -> Option<real>, x: Variable)
    returns (fault: Option<Fault>)
    requires Fits(x.missingCount, RangeDtaPlan(md, column, missing, strtod).adds, x.missingRanges.Length)
    modifies x`missingCount, x.missingRanges
    ensures Outcome(x, old(x.missingRanges[..]), old(x.missingCount), RangeDtaPlan(md, column, missing, strtod), fault)
  {
    var low := FindObjectProperty(md, missing, "low");
    var high := FindObjectProperty(md, missing, "high");
    var discrete := FindObjectProperty(md, missing, "discrete-value");
    var categories := FindVariableProperty(md, column, "categories");
    if categories.None? && (low.Some? || high.Some? || discrete.Some?) {
      return Some(RangeWithoutCategories);
    } else if categories.None? {
      return None;
    }
    if low.Some? && high.None? {
      return Some(LowWithoutHigh);
    }
    if high.Some? && low.None? {
      return Some(HighWithoutLow);
    }
    ghost var ps := CategorySteps(md, Children(md, categories.value), low, high, discrete, strtod);
    ghost var s0, c0 := x.missingRanges[..], x.missingCount;
    RoomChain(ps, 0, c0, x.missingRanges.Length);
    RunChain(ps, 0, s0, c0);
    fault := AddForCategories(md, categories.value, low, high, discrete, strtod, x, ps);
  }

  /**
   * DTA RANGE: without "categories" it fails exactly when low, high or
   * discrete-value is given and adds nothing otherwise; a low without a high,
   * or a high without a low, fails before anything is added; every entry it
   * adds is a category code, tagged, admitted by [low, high] or by the
   * discrete value.
   */
  lemma RangeDtaEntries(md: Metadata, column: string, missing: nat, strtod: string -> Option<real>)
    ensures var p := RangeDtaPlan(md, column, missing, strtod);
            var low, high, discrete := FindProp(md, missing, "low"), FindProp(md, missing, "high"), FindProp(md, missing, "discrete-value");
            && (FindVariableProp(md, column, "categories").None? ==>
                  p == if low.Some? || high.Some? || discrete.Some? then Fail(RangeWithoutCategories) else Done())
            && (FindVariableProp(md, column, "categories").Some? && low.Some? && high.None? ==> p == Fail(LowWithoutHigh))
            && (FindVariableProp(md, column, "categories").Some? && high.Some? && low.None? ==> p == Fail(HighWithoutLow))
            && (forall a :: a in p.adds ==> a.Tagged? && Admitted(md, low, high, discrete, strtod, a.d))
            && (p.fault.Some? ==> p.fault.value in {RangeWithoutCategories, LowWithoutHigh, HighWithoutLow, MissingCodeOrLabel, NotANumber})
  {
    var low, high, discrete := FindProp(md, missing, "low"), FindProp(md, missing, "high"), FindProp(md, missing, "discrete-value");
    var categories := FindVariableProp(md, column, "categories");
    if categories.Some? && !(low.Some? && high.None?) && !(high.Some? && low.None?) {
      var cs := Children(md, categories.value);
      var ps := CategorySteps(md, cs, low, high, discrete, strtod);
      var good := (a: Add) => a.Tagged? && Admitted(md, low, high, discrete, strtod, a.d);
      var bad := (e: Fault) => e in {MissingCodeOrLabel, NotANumber};
      forall k, a | 0 <= k < |ps| && a in ps[k].adds ensures good(a) {
        assert ps[k] == CategoryPlan(md, cs[k], low, high, discrete, strtod);
        CategoryAdmitted(md, cs[k], low, high, discrete, strtod);
      }
      forall k | 0 <= k < |ps| && ps[k].fault.Some? ensures bad(ps[k].fault.value) {
        assert ps[k] == CategoryPlan(md, cs[k], low, high, discrete, strtod);
      }
      ChainKeeps(ps, 0, good, bad);
    }
  }

  /**
   * The table a DTA RANGE leaves from entry `c0` on: entry c0 + k holds the
   * k-th admitted code twice, tagged `'a' + (c0 + k)`.
   */
  lemma RangeDtaTable(md: Metadata, column: string, missing: nat, strtod: string -> Option<real>, s0: seq<Value>, c0: nat)
    requires Fits(c0, RangeDtaPlan(md, column, missing, strtod).adds, |s0|)
    ensures var p := RangeDtaPlan(md, column, missing, strtod);
            forall k :: 0 <= k < |p.adds| ==>
              p.adds[k].Tagged?
              && Need(c0 + k, p.adds[k]) == 2 * (c0 + k) + 2 <= |s0|
              && ApplyAll(s0, c0, p.adds)[2 * (c0 + k)] == TaggedDouble(c0 + k, p.adds[k].d)
              && ApplyAll(s0, c0, p.adds)[2 * (c0 + k) + 1] == TaggedDouble(c0 + k, p.adds[k].d)
              && Admitted(md, FindProp(md, missing, "low"), FindProp(md, missing, "high"),
                          FindProp(md, missing, "discrete-value"), strtod, p.adds[k].d)
  {
    var p := RangeDtaPlan(md, column, missing, strtod);
    var low, high, discrete := FindProp(md, missing, "low"), FindProp(md, missing, "high"), FindProp(md, missing, "discrete-value");
    RangeDtaEntries(md, column, missing, strtod);
    forall k | 0 <= k < |p.adds|
      ensures p.adds[k].Tagged? && Admitted(md, low, high, discrete, strtod, p.adds[k].d)
    {
      assert p.adds[k] in p.adds;
    }
    TaggedPairs(s0, c0, p.adds);
  }

  // ---------------------------------------------------------------------
  // RANGE for SAV output: at most a (low, high) pair and a (v, v) pair
  // ---------------------------------------------------------------------

  /** The (low, high) range, when both bounds are given. */
  function SavRange(md: Metadata, low: Option<nat>, high: Option<nat>, isDate: bool, f: Foreign): Plan {
    if low.Some? && high.Some? then
      match SavBound(md, low.value, isDate, f)
      case Err(e) => Fail(e)
      case Ok(lo) =>
        match SavBound(md, high.value, isDate, f)
        case Err(e) => Fail(e)
        case Ok(hi) => Plan([Range(lo, hi)], None)
    else Done()
  }

  /** The discrete value as a (v, v) range, when it is given. */
  function SavDiscrete(md: Metadata, discrete: Option<nat>, isDate: bool, f: Foreign): Plan {
    if discrete.Some? then
      match SavBound(md, discrete.value, isDate, f)
      case Err(e) => Fail(e)
      case Ok(v) => Plan([Range(v, v)], None)
    else Done()
  }

  /** produce_missingness_range_sav */
  function RangeSavPlan(md: Metadata, missing: nat, isDate: bool, f: Foreign): Plan {
    var low := FindProp(md, missing, "low");
    var high := FindProp(md, missing, "high");
    var discrete := FindProp(md, missing, "discrete-value");
    if low.Some? && high.None? then Fail(LowWithoutHigh)
    else if high.Some? && low.None? then Fail(HighWithoutLow)
    else Seq(SavRange(md, low, high, isDate, f), SavDiscrete(md, discrete, isDate, f))
  }

  /**
   * SAV RANGE: a low without a high, or a high without a low, fails before
   * anything is added; otherwise the entries are the (low, high) range when
   * both are given, then the (v, v) range of the discrete value when it is
   * given, each bound read as a SAV date on a date column and as a number
   * otherwise.
   */
  lemma RangeSavEntries(md: Metadata, missing: nat, isDate: bool, f: Foreign)
    ensures var p := RangeSavPlan(md, missing, isDate, f);
            var low, high, discrete := FindProp(md, missing, "low"), FindProp(md, missing, "high"), FindProp(md, missing, "discrete-value");
            && (low.Some? && high.None? ==> p == Fail(LowWithoutHigh))
            && (high.Some? && low.None? ==> p == Fail(HighWithoutLow))
            && |p.adds| <= 2
            && (forall a :: a in p.adds ==> a.Range?)
            && (p.fault.None? ==>
                  p.adds == (if low.Some? then [Range(SavBound(md, low.value, isDate, f).value, SavBound(md, high.value, isDate, f).value)] else [])
                            + (if discrete.Some? then [Range(SavBound(md, discrete.value, isDate, f).value, SavBound(md, discrete.value, isDate, f).value)] else []))
  {
  }

  /** The (low, high) block of produce_missingness_range_sav. */
  method AddSavRange(md: Metadata, low: Option<nat>, high: Option<nat>, isDate: bool, f: Foreign, x: Variable)
    returns (fault: Option<Fault>)
    requires Fits(x.missingCount, SavRange(md, low, high, isDate, f).adds, x.missingRanges.Length)
    modifies x`missingCount, x.missingRanges
    ensures Outcome(x, old(x.missingRanges[..]), old(x.missingCount), SavRange(md, low, high, isDate, f), fault)
  {
    if low.Some? && high.Some? {
      var lo := SavBound(md, low.value, isDate, f);
      if lo.Err? {
        return Some(lo.fault);
      }
      var hi := SavBound(md, high.value, isDate, f);
      if hi.Err? {
        return Some(hi.fault);
      }
      ghost var s0, c0 := x.missingRanges[..], x.missingCount;
      assert SavRange(md, low, high, isDate, f).adds[0] == Range(lo.value, hi.value);
      assert NeedAt(c0, SavRange(md, low, high, isDate, f).adds, 0) <= x.missingRanges.Length;
      AddMissingDoubleRange(x, lo.value, hi.value);
      ApplyAllOne(s0, c0, Range(lo.value, hi.value));
    }
    return None;
  }

  /** The discrete-value block of produce_missingness_range_sav. */
  method AddSavDiscrete(md: Metadata, discrete: Option<nat>, isDate: bool, f: Foreign, x: Variable)
    returns (fault: Option<Fault>)
    requires Fits(x.missingCount, SavDiscrete(md, discrete, isDate, f).adds, x.missingRanges.Length)
    modifies x`missingCount, x.missingRanges
    ensures Outcome(x, old(x.missingRanges[..]), old(x.missingCount), SavDiscrete(md, discrete, isDate, f), fault)
  {
    if discrete.Some? {
      var v := SavBound(md, discrete.value, isDate, f);
      if v.Err? {
        return Some(v.fault);
      }
      ghost var s0, c0 := x.missingRanges[..], x.missingCount;
      assert SavDiscrete(md, discrete, isDate, f).adds[0] == Range(v.value, v.value);
      assert NeedAt(c0, SavDiscrete(md, discrete, isDate, f).adds, 0) <= x.missingRanges.Length;
      AddMissingDoubleRange(x, v.value, v.value);
      ApplyAllOne(s0, c0, Range(v.value, v.value));
    }
    return None;
  }

  /** produce_missingness_range_sav */
  method ProduceMissingnessRangeSav(md: Metadata, missing: nat, isDate: bool, f: Foreign, x: Variable)
    returns (fault: Option<Fault>)
    requires Fits(x.missingCount, RangeSavPlan(md, missing, isDate, f).adds, x.missingRanges.Length)
    modifies x`missingCount, x.missingRanges
    ensures Outcome(x, old(x.missingRanges[..]), old(x.missingCount), RangeSavPlan(md, missing, isDate, f), fault)
  {
    var low := FindObjectProperty(md, missing, "low");
    var high := FindObjectProperty(md, missing, "high");
    var discrete := FindObjectProperty(md, missing, "discrete-value");
    if low.Some? && high.None? {
      return Some(LowWithoutHigh);
    }
    if high.Some? && low.None? {
      return Some(HighWithoutLow);
    }
    ghost var p, q := SavRange(md, low, high, isDate, f), SavDiscrete(md, discrete, isDate, f);
    assert RangeSavPlan(md, missing, isDate, f) == Seq(p, q);
    ghost var s0, c0 := x.missingRanges[..], x.missingCount;
    SeqFitsFirst(c0, p, q, |s0|);
    fault := AddSavRange(md, low, high, isDate, f, x);
    if fault.Some? {
      return;
    }
    SeqSplit(s0, c0, p, q);
    ghost var s1, c1 := x.missingRanges[..], x.missingCount;
    fault := AddSavDiscrete(md, discrete, isDate, f, x);
    OutcomeSeq(x, s0, c0, p, q, s1, c1, fault);
  }

  // ---------------------------------------------------------------------
  // produce_missingness
  // ---------------------------------------------------------------------

  /**
   * produce_missingness from an emptied table: no "missing" adds nothing; a
   * "missing" without "type" is fatal; DISCRETE, and RANGE for SAV or DTA
   * output, go to their producers; any other type is ignored for CSV output
   * and fatal otherwise.
   */
  function MissingPlan(md: Metadata, column: string, fmt: OutputFormat, typ: ValueType, isDate: bool, f: Foreign): Plan {
    match FindVariableProp(md, column, "missing")
    case None => Done()
    case Some(missing) =>
      match FindProp(md, missing, "type")
      case None => Fail(MissingWithoutType)
      case Some(t) =>
        if MatchToken(md, t, "DISCRETE") then DiscretePlan(md, missing, fmt, typ, isDate, f)
        else if MatchToken(md, t, "RANGE") && fmt == Sav then RangeSavPlan(md, missing, isDate, f)
        else if MatchToken(md, t, "RANGE") && fmt == Dta then RangeDtaPlan(md, column, missing, f.strtod)
        else if fmt == Csv then Done()
        else Fail(UnknownMissingType)
  }

  /** produce_missingness: the count is reset first, then the column's "missing" object is applied. */
  method ProduceMissingness(md: Metadata, column: string, fmt: OutputFormat, isDate: bool, f: Foreign, x: Variable)
    returns (fault: Option<Fault>)
    requires Fits(0, MissingPlan(md, column, fmt, x.typ, isDate, f).adds, x.missingRanges.Length)
    modifies x`missingCount, x.missingRanges
    ensures Outcome(x, old(x.missingRanges[..]), 0, MissingPlan(md, column, fmt, x.typ, isDate, f), fault)
    ensures FindVariableProp(md, column, "missing").None? ==> x.missingCount == 0 && fault.None?
  {
    x.missingCount := 0;
    var missing := FindVariableProperty(md, column, "missing");
    if missing.None? {
      return None;
    }
    var missingType := FindObjectProperty(md, missing.value, "type");
    if missingType.None? {
      return Some(MissingWithoutType);
    }
    if MatchToken(md, missingType.value, "DISCRETE") {
      fault := ProduceMissingnessDiscrete(md, missing.value, fmt, isDate, f, x);
    } else if MatchToken(md, missingType.value, "RANGE") && fmt == Sav {
      fault := ProduceMissingnessRangeSav(md, missing.value, isDate, f, x);
    } else if MatchToken(md, missingType.value, "RANGE") && fmt == Dta {
      fault := ProduceMissingnessRangeDta(md, column, missing.value, f.strtod, x);
    } else if fmt == Csv {
      return None;
    } else {
      return Some(UnknownMissingType);
    }
  }

  /** The faults DISCRETE can end with: no "values", a text that does not parse, or an unsupported column. */
  lemma DiscreteFaults(md: Metadata, missing: nat, fmt: OutputFormat, typ: ValueType, isDate: bool, f: Foreign)
    ensures DiscretePlan(md, missing, fmt, typ, isDate, f).fault.Some? ==>
              DiscretePlan(md, missing, fmt, typ, isDate, f).fault.value in {DiscreteWithoutValues, NotADate, NotANumber, UnsupportedColumnType}
  {
    var values := FindProp(md, missing, "values");
    if values.Some? {
      var cs := Children(md, values.value);
      DiscreteChain(md, cs, fmt, typ, isDate, f);
    }
  }

  /**
   * The dispatch of produce_missingness: a "missing" without "type" is
   * fatal; the type is unknown, and fatal, exactly when it is neither
   * DISCRETE nor a RANGE for SAV or DTA output and the output is not CSV;
   * for CSV output anything but DISCRETE adds nothing and cannot fail.
   */
  lemma MissingDispatch(md: Metadata, column: string, fmt: OutputFormat, typ: ValueType, isDate: bool, f: Foreign)
    ensures var p := MissingPlan(md, column, fmt, typ, isDate, f);
            var missing := FindVariableProp(md, column, "missing");
            && (missing.None? ==> p == Done())
            && (missing.Some? && FindProp(md, missing.value, "type").None? ==> p == Fail(MissingWithoutType))
            && (p.fault == Some(UnknownMissingType) <==>
                  missing.Some? && FindProp(md, missing.value, "type").Some?
                  && !MatchToken(md, FindProp(md, missing.value, "type").value, "DISCRETE")
                  && !(MatchToken(md, FindProp(md, missing.value, "type").value, "RANGE") && (fmt == Sav || fmt == Dta))
                  && fmt != Csv)
            && ((fmt == Csv && missing.Some? && FindProp(md, missing.value, "type").Some?
                 && !MatchToken(md, FindProp(md, missing.value, "type").value, "DISCRETE")) ==> p == Done())
  {
    var missing := FindVariableProp(md, column, "missing");
    if missing.Some? && FindProp(md, missing.value, "type").Some? {
      var t := FindProp(md, missing.value, "type").value;
      if MatchToken(md, t, "DISCRETE") {
        DiscreteKnown(md, missing.value, fmt, typ, isDate, f);
      } else if MatchToken(md, t, "RANGE") && fmt == Sav {
        RangeSavKnown(md, missing.value, isDate, f);
      } else if MatchToken(md, t, "RANGE") && fmt == Dta {
        RangeDtaKnown(md, column, missing.value, f.strtod);
      }
    }
  }

  /** DISCRETE never ends with the fault of an unknown type. */
  lemma DiscreteKnown(md: Metadata, missing: nat, fmt: OutputFormat, typ: ValueType, isDate: bool, f: Foreign)
    ensures DiscretePlan(md, missing, fmt, typ, isDate, f).fault != Some(UnknownMissingType)
  {
    DiscreteFaults(md, missing, fmt, typ, isDate, f);
  }

  /** RANGE for SAV output never ends with the fault of an unknown type. */
  lemma RangeSavKnown(md: Metadata, missing: nat, isDate: bool, f: Foreign)
    ensures RangeSavPlan(md, missing, isDate, f).fault != Some(UnknownMissingType)
  {
    RangeSavEntries(md, missing, isDate, f);
  }

  /** RANGE for DTA output never ends with the fault of an unknown type. */
  lemma RangeDtaKnown(md: Metadata, column: string, missing: nat, strtod: string -> Option<real>)
    ensures RangeDtaPlan(md, column, missing, strtod).fault != Some(UnknownMissingType)
  {
    RangeDtaEntries(md, column, missing, strtod);
  }

}
