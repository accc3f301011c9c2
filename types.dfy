/**
 * Shared vocabulary of the CSV + JSON-metadata conversion layer: option and
 * result wrappers, the fatal conditions of the C code (each an
 * `exit(EXIT_FAILURE)` there), ReadStat's typed value, and the foreign
 * routines the layer calls but does not define.
 */
module Types {

  datatype Option<T> = None | Some(value: T)

  /** The reasons for which the C code calls `exit(EXIT_FAILURE)`. */
  datatype Fault =
    | NotANumber              // strtod consumed nothing
    | NotADate                // a calendar parse consumed nothing
    | NoVariableType          // column_type: no "type" property for the variable
    | UnknownVariableType     // a "type" other than NUMERIC / STRING, or an unhandled ReadStat type
    | MissingWithoutType      // "missing" object without "type"
    | UnknownMissingType      // "missing.type" neither DISCRETE nor a RANGE the output accepts
    | DiscreteWithoutValues   // DISCRETE without "values"
    | UnsupportedColumnType   // a column type the operation has no branch for
    | RangeWithoutCategories  // DTA RANGE with low/high/discrete-value but no "categories"
    | LowWithoutHigh
    | HighWithoutLow
    | MissingCodeOrLabel      // a category without "code" or "label"
    | NonDoubleRange          // value_double_dta met a range whose low value is not DOUBLE
    | UnexpectedNewLabelSet   // handle_variable had to create the label set it looked up

  datatype Result<T> = Ok(value: T) | Err(fault: Fault)

  /** readstat_type_t */
  datatype ValueType =
    | StringType | Int8Type | Int16Type | Int32Type | FloatType | DoubleType | StringRefType

  /** The union `v` of readstat_value_t; `NoPayload` is the zero-filled union. */
  datatype Payload = NoPayload | DoubleV(d: real) | Int32V(i: int) | StringV(s: string)

  /** readstat_value_t: a type, the two missing flags, the tag and the payload. */
  datatype Value = Value(typ: ValueType, isSystemMissing: bool, isTaggedMissing: bool, tag: char, v: Payload)

  /** The tag of a zero-initialised value. */
  const NoTag: char := 0 as char

  /** The C expression `'a' + i` stored in a `char`: eight-bit wrap-around. */
  function TagFor(i: nat): (c: char)
    ensures i < 26 ==> 'a' <= c <= 'z'
  {
    ((('a' as int) + i) % 256) as char
  }

  /** An ordinary present value: not system-missing, not tagged. */
  function Present(typ: ValueType, v: Payload): (r: Value)
    ensures !r.isSystemMissing && !r.isTaggedMissing && r.v == v
  {
    Value(typ, false, false, NoTag, v)
  }

  /** A tagged (user-)missing DOUBLE carrying its payload, as dta_add_missing and value_double_dta build it. */
  function TaggedDouble(i: nat, d: real): (r: Value)
    ensures r.isTaggedMissing && !r.isSystemMissing && r.tag == TagFor(i) && r.v == DoubleV(d)
  {
    Value(DoubleType, false, true, TagFor(i), DoubleV(d))
  }

  /** `snprintf(dest, n + 1, "%.*s", ...)` keeps the first `n` characters at most. */
  function Truncate(s: string, n: nat): string {
    if |s| <= n then s else s[..n]
  }

  /** A truncated text is a prefix of at most `n` characters, the whole text when it fits. */
  lemma TruncatePrefix(s: string, n: nat)
    ensures |Truncate(s, n)| <= n && Truncate(s, n) <= s
    ensures |s| <= n ==> Truncate(s, n) == s
    ensures |s| > n ==> |Truncate(s, n)| == n
  {
  }

  /**
   * Routines the layer calls whose code is not part of this model, as
   * parameters: the C library's `strtod` (None when it consumes nothing),
   * `readstat_sav_date_parse` (None when it consumes nothing), `is_date`,
   * the three-argument `column_type` (with the output format fixed) and
   * `missing_string_idx`.
   */
  datatype Foreign = Foreign(
    strtod: string -> Option<real>,
    savDateParse: string -> Option<real>,
    isDate: string -> bool,
    columnType: string -> Result<ValueType>,
    missingStringIdx: (string, string) -> nat)
}
