/**
 * The metadata extractor's callbacks: a registry of label sets, found by
 * name or appended, each holding the value labels the reader reported in
 * order, and the per-variable object written from a variable record and
 * its label set.
 */
module ExtractMetadata {
  import opened Types
  import opened Variables
  import JsonMetadata

  /** readstat_value_label_t as handle_value_label fills it: the double key and the label text. */
  datatype LabelEntry = LabelEntry(key: real, labelText: string)

  /** readstat_label_set_t: its name and its value labels, `value_labels_count` of them. */
  datatype LabelSet = LabelSet(name: string, labels: seq<LabelEntry>)

  /** A label set as `memset(lbl, 0, sizeof(readstat_label_set_t))` leaves it. */
  const EmptySet: LabelSet := LabelSet("", [])

  /**
   * The content of the object handle_variable writes for one variable: its
   * type name, name and label, the categories of its label set when it has
   * one, and its missing values.
   */
  datatype Entry = Entry(typeName: string, name: string, labelText: string,
                         categories: Option<seq<LabelEntry>>, missing: seq<real>)

  /** `value.v.double_value`; a value without a double payload reads as the zeroed union. */
  function KeyOf(v: Value): real {
    if v.v.DoubleV? then v.v.d else 0.0
  }

  // ---------------------------------------------------------------------
  // The label-set registry
  // ---------------------------------------------------------------------

  /** The index of the first set named `name`, the set get_label_set returns without appending. */
  function FindSet(sets: seq<LabelSet>, name: string): (r: Option<nat>)
    ensures r.Some? ==> r.value < |sets| && sets[r.value].name == name
    ensures r.Some? ==> forall j :: 0 <= j < r.value ==> sets[j].name != name
    ensures r.None? ==> forall j :: 0 <= j < |sets| ==> sets[j].name != name
    decreases |sets|
  {
    if |sets| == 0 then None
    else if sets[0].name == name then Some(0)
    else match FindSet(sets[1..], name)
      case None => None
      case Some(i) => Some(i + 1)
  }

  /** Two registries that agree on the names of the first sets, and where the longer one adds no set named `name`, find the same set. */
  lemma {:induction false} FindSetExtend(a: seq<LabelSet>, b: seq<LabelSet>, name: string)
    requires |a| <= |b| && forall j :: 0 <= j < |a| ==> b[j].name == a[j].name
    requires forall j :: |a| <= j < |b| ==> b[j].name != name
    ensures FindSet(b, name) == FindSet(a, name)
    decreases |a|
  {
    if |a| > 0 && a[0].name != name {
      FindSetExtend(a[1..], b[1..], name);
    }
  }

  /** handle_value_label acts only on a DOUBLE value whose set name starts with "labels". */
  predicate Labelled(valLabels: string, value: Value) {
    value.typ == DoubleType && "labels" <= valLabels
  }

  /**
   * The registry after handle_value_label: the set named `valLabels` is
   * found or appended, its name is rewritten as the snprintf keeps it (at
   * most `cap` characters) and the label is appended to its labels.
   */
  function AddLabel(sets: seq<LabelSet>, valLabels: string, value: Value, labelText: string, cap: nat): (r: seq<LabelSet>)
    ensures !Labelled(valLabels, value) ==> r == sets
    ensures |sets| <= |r| <= |sets| + 1
    ensures |r| == |sets| + 1 <==> Labelled(valLabels, value) && FindSet(sets, valLabels).None?
    ensures forall j :: 0 <= j < |sets| && FindSet(sets, valLabels) != Some(j) ==> r[j] == sets[j]
  {
    if !Labelled(valLabels, value) then sets
    else
      var entry := LabelEntry(KeyOf(value), labelText);
      match FindSet(sets, valLabels)
      case Some(i) => sets[i := LabelSet(Truncate(valLabels, cap), sets[i].labels + [entry])]
      case None => sets + [LabelSet(Truncate(valLabels, cap), [entry])]
  }

  /**
   * One label added under a name that fits: the set named `name` exists
   * afterwards exactly when it existed before or the label went into it,
   * and its labels are the earlier ones followed by the new label when the
   * label went into it.
   */
  lemma AddLabelFind(sets: seq<LabelSet>, valLabels: string, value: Value, labelText: string, cap: nat, name: string)
    requires |valLabels| <= cap
    ensures var r := AddLabel(sets, valLabels, value, labelText, cap);
            var hit := Labelled(valLabels, value) && valLabels == name;
            (FindSet(r, name).Some? <==> FindSet(sets, name).Some? || hit)
            && (FindSet(r, name).Some? ==>
                  r[FindSet(r, name).value].labels
                  == (if FindSet(sets, name).Some? then sets[FindSet(sets, name).value].labels else [])
                     + (if hit then [LabelEntry(KeyOf(value), labelText)] else []))
  {
    var r := AddLabel(sets, valLabels, value, labelText, cap);
    if Labelled(valLabels, value) {
      TruncatePrefix(valLabels, cap);
      assert Truncate(valLabels, cap) == valLabels;
      match FindSet(sets, valLabels)
      case Some(i) =>
        FindSetExtend(sets, r, name);
      case None =>
        if valLabels == name {
          FindSetExtend(sets, sets, name);
          assert r[|sets|].name == name;
          assert FindSet(r, name) == Some(|sets|) by {
            forall j | 0 <= j < |sets| ensures r[j].name != name {
              assert r[j] == sets[j];
            }
          }
        } else {
          FindSetExtend(sets, r, name);
        }
    }
  }

  /** One call of handle_value_label: the set name, the value and the label text. */
  datatype LabelCall = LabelCall(valLabels: string, value: Value, labelText: string)

  /** The registry after the calls `calls`, in order, starting from `sets`. */
  function Replay(sets: seq<LabelSet>, calls: seq<LabelCall>, cap: nat): (r: seq<LabelSet>)
    ensures |sets| <= |r|
    decreases |calls|
  {
    if |calls| == 0 then sets
    else
      var c := calls[|calls| - 1];
      AddLabel(Replay(sets, calls[..|calls| - 1], cap), c.valLabels, c.value, c.labelText, cap)
  }

  /** The labels among `calls` that handle_value_label keeps under the name `name`, in order. */
  function LabelsFor(calls: seq<LabelCall>, name: string): seq<LabelEntry>
    decreases |calls|
  {
    if |calls| == 0 then []
    else
      var c := calls[|calls| - 1];
      LabelsFor(calls[..|calls| - 1], name)
      + (if Labelled(c.valLabels, c.value) && c.valLabels == name then [LabelEntry(KeyOf(c.value), c.labelText)] else [])
  }

  /**
   * What the registry holds after the reader's value-label calls, when
   * every set name fits the name buffer: a set named `name` exists exactly
   * when at least one DOUBLE label arrived under that name, and it lists
   * exactly those labels, in the order they arrived.
   */
  lemma {:induction false} ReplayLists(calls: seq<LabelCall>, cap: nat, name: string)
    requires forall k :: 0 <= k < |calls| ==> |calls[k].valLabels| <= cap
    ensures var sets := Replay([], calls, cap);
            (FindSet(sets, name).Some? <==> |LabelsFor(calls, name)| > 0)
            && (FindSet(sets, name).Some? ==> sets[FindSet(sets, name).value].labels == LabelsFor(calls, name))
    decreases |calls|
  {
    if |calls| > 0 {
      var front := calls[..|calls| - 1];
      var c := calls[|calls| - 1];
      ReplayLists(front, cap, name);
      AddLabelFind(Replay([], front, cap), c.valLabels, c.value, c.labelText, cap, name);
    }
  }

  /** Every set name is at most `cap` characters long. */
  predicate NamesFit(sets: seq<LabelSet>, cap: nat) {
    forall j :: 0 <= j < |sets| ==> |sets[j].name| <= cap
  }

  /** The snprintf keeps every set name within `cap` characters, whatever names the calls carry. */
  lemma {:induction false} ReplayNamesFit(calls: seq<LabelCall>, cap: nat)
    ensures NamesFit(Replay([], calls, cap), cap)
    decreases |calls|
  {
    if |calls| > 0 {
      var front := calls[..|calls| - 1];
      var c := calls[|calls| - 1];
      ReplayNamesFit(front, cap);
      TruncatePrefix(c.valLabels, cap);
    }
  }

  // ---------------------------------------------------------------------
  // The per-variable object
  // ---------------------------------------------------------------------

  /** The type name handle_variable writes: STRING and NUMERIC; every other type is fatal. */
  function TypeName(t: ValueType): (r: Result<string>)
    ensures r.Ok? <==> t == StringType || t == DoubleType
    ensures r.Err? ==> r.fault == UnknownVariableType
  {
    match t
    case StringType => Ok("STRING")
    case DoubleType => Ok("NUMERIC")
    case _ => Err(UnknownVariableType)
  }

  /**
   * The type name written is the one the CSV side's column_type reads back
   * as the same type, and no other name is read back as that type.
   */
  lemma TypeNameReadBack(md: JsonMetadata.Metadata, varname: string, t: ValueType)
    requires TypeName(t).Ok?
    ensures JsonMetadata.ColumnType(md, varname) == Ok(t) <==> JsonMetadata.TypeIs(md, varname, TypeName(t).value)
  {
  }

  /**
   * The missing values as handle_variable reads them: slot `i` for each of
   * the `count` entries.
   */
  function MissingAsWritten(slots: seq<Value>, count: nat): (r: seq<real>)
    requires count <= |slots|
    ensures |r| == count
  {
    seq(count, i requires 0 <= i < count => KeyOf(slots[i]))
  }

  /** The missing values read as the table stores them: the low value of entry `i` sits in slot `2 * i`. */
  function MissingValues(slots: seq<Value>, count: nat): (r: seq<real>)
    requires 2 * count <= |slots|
    ensures |r| == count
  {
    seq(count, i requires 0 <= i < count => KeyOf(slots[2 * i]))
  }

  /**
   * After (lo, hi) range additions into an empty table, the missing values
   * written are the low bounds of the ranges, in the order they were added.
   */
  lemma MissingValuesAreLows(slots: seq<Value>, adds: seq<Add>)
    requires Fits(0, adds, |slots|)
    requires forall k :: 0 <= k < |adds| ==> adds[k].Range?
    ensures 2 * |adds| <= |slots|
    ensures var r := MissingValues(ApplyAll(slots, 0, adds), |adds|);
            forall k :: 0 <= k < |adds| ==> r[k] == adds[k].lo
  {
    RangePairs(slots, 0, adds);
    if |adds| > 0 {
      assert Need(|adds| - 1, adds[|adds| - 1]) <= |slots|;
    }
  }

  /** The table that stores the discrete missing values `ds`, each as the pair (d, d). */
  function DiscreteAdds(ds: seq<real>): (r: seq<Add>)
    ensures |r| == |ds| && forall k :: 0 <= k < |ds| ==> r[k] == Range(ds[k], ds[k])
  {
    seq(|ds|, k requires 0 <= k < |ds| => Range(ds[k], ds[k]))
  }

  /** Discrete missing values stored as pairs are written back as the same values. */
  lemma DiscreteRoundTrip(slots: seq<Value>, ds: seq<real>)
    requires Fits(0, DiscreteAdds(ds), |slots|)
    ensures 2 * |ds| <= |slots|
    ensures MissingValues(ApplyAll(slots, 0, DiscreteAdds(ds)), |ds|) == ds
  {
    MissingValuesAreLows(slots, DiscreteAdds(ds));
  }

  /**
   * Reading slot `i` instead of slot `2 * i`: the discrete values 1 and 2,
   * stored as the pairs (1, 1) and (2, 2), are written as 1 and 1.
   */
  lemma DiscreteMisread()
    ensures var slots := ApplyAll([ZeroValue, ZeroValue, ZeroValue, ZeroValue], 0, DiscreteAdds([1.0, 2.0]));
            MissingAsWritten(slots, 2) == [1.0, 1.0] && MissingValues(slots, 2) == [1.0, 2.0]
  {
    var zeros := [ZeroValue, ZeroValue, ZeroValue, ZeroValue];
    var adds := DiscreteAdds([1.0, 2.0]);
    assert Fits(0, adds, 4) by {
      assert Need(0, adds[0]) == 2 && Need(1, adds[1]) == 4;
    }
    RangePairs(zeros, 0, adds);
    var slots := ApplyAll(zeros, 0, adds);
    assert slots[0] == DoubleValue(1.0) && slots[1] == DoubleValue(1.0) && slots[2] == DoubleValue(2.0);
  }

  /** The missing-value list: none without entries; entries on a non-DOUBLE variable are fatal. */
  function MissingList(typ: ValueType, slots: seq<Value>, count: nat): (r: Result<seq<real>>)
    requires typ == DoubleType ==> 2 * count <= |slots|
    ensures r.Err? <==> count > 0 && typ != DoubleType
    ensures r.Ok? ==> |r.value| == count
  {
    if count == 0 then Ok([])
    else if typ != DoubleType then Err(UnsupportedColumnType)
    else Ok(MissingValues(slots, count))
  }

  /**
   * The variable's missing values, read one entry at a time from slot 2i,
   * the corrected reading; `MissingAsWritten` is the slot-i reading of the
   * program as written.
   */
  method WriteMissing(x: Variable) returns (r: Result<seq<real>>)
    requires x.typ == DoubleType ==> 2 * x.missingCount <= x.missingRanges.Length
    ensures r == MissingList(x.typ, x.missingRanges[..], x.missingCount)
  {
    var values: seq<real> := [];
    var i := 0;
    while i < x.missingCount
      invariant 0 <= i <= x.missingCount
      invariant i > 0 ==> x.typ == DoubleType
      invariant x.typ == DoubleType ==> values == MissingValues(x.missingRanges[..], i)
      invariant x.typ != DoubleType ==> values == []
    {
      if x.typ == DoubleType {
        values := values + [KeyOf(x.missingRanges[2 * i])];
      } else {
        return Err(UnsupportedColumnType);
      }
      i := i + 1;
    }
    return Ok(values);
  }

  /** The variable names a label set that is not yet in the registry, which handle_variable then creates. */
  predicate Creates(typ: ValueType, sets: seq<LabelSet>, valLabels: Option<string>) {
    TypeName(typ).Ok? && valLabels.Some? && FindSet(sets, valLabels.value).None?
  }

  /**
   * The object handle_variable writes for a variable, or the fault that
   * stops it: an unhandled type, a label set that does not exist yet, or
   * missing values on a non-DOUBLE variable, checked in that order.
   */
  function Written(typ: ValueType, name: string, labelText: string, slots: seq<Value>, count: nat,
                   sets: seq<LabelSet>, valLabels: Option<string>): (r: Result<Entry>)
    requires typ == DoubleType ==> 2 * count <= |slots|
    ensures r.Ok? <==> TypeName(typ).Ok? && !Creates(typ, sets, valLabels) && (count == 0 || typ == DoubleType)
    ensures r == Err(UnexpectedNewLabelSet) <==> Creates(typ, sets, valLabels)
    ensures r.Ok? ==> (r.value.categories.Some? <==> valLabels.Some?)
  {
    match TypeName(typ)
    case Err(e) => Err(e)
    case Ok(tn) =>
      if Creates(typ, sets, valLabels) then Err(UnexpectedNewLabelSet)
      else
        var categories := if valLabels.None? then None else Some(sets[FindSet(sets, valLabels.value).value].labels);
        match MissingList(typ, slots, count)
        case Err(e) => Err(e)
        case Ok(missing) => Ok(Entry(tn, name, labelText, categories, missing))
  }

  /**
   * A variable whose label set received labels under a fitting name is
   * written with exactly those labels as its categories; one whose set
   * received none is fatal.
   */
  lemma CategoriesAreLabels(calls: seq<LabelCall>, cap: nat, typ: ValueType, name: string, labelText: string,
                            slots: seq<Value>, count: nat, valLabels: string)
    requires forall k :: 0 <= k < |calls| ==> |calls[k].valLabels| <= cap
    requires typ == DoubleType && 2 * count <= |slots|
    ensures var r := Written(typ, name, labelText, slots, count, Replay([], calls, cap), Some(valLabels));
            (r.Ok? <==> |LabelsFor(calls, valLabels)| > 0)
            && (r.Ok? ==> r.value.categories == Some(LabelsFor(calls, valLabels)))
  {
    ReplayLists(calls, cap, valLabels);
  }

  /**
   * A set name longer than the name buffer keeps is never found again: each
   * of its labels starts a new set, and a variable naming it is fatal.
   */
  lemma LongNameNeverFound(calls: seq<LabelCall>, cap: nat, typ: ValueType, name: string, labelText: string,
                           slots: seq<Value>, count: nat, valLabels: string)
    requires |valLabels| > cap
    requires typ == DoubleType ==> 2 * count <= |slots|
    requires typ == DoubleType || typ == StringType
    ensures FindSet(Replay([], calls, cap), valLabels).None?
    ensures Written(typ, name, labelText, slots, count, Replay([], calls, cap), Some(valLabels)) == Err(UnexpectedNewLabelSet)
  {
    ReplayNamesFit(calls, cap);
  }

  /** The extractor's context: the prologue flag, the label-set registry and the objects written. */
  class Context {
    /** `count`: 0 until the first variable has been written. */
    var count: int
    /** `label_set`, `variable_count` sets long. */
    var labelSets: seq<LabelSet>
    /** The variable objects written so far. */
    var entries: seq<Entry>
    /** `sizeof(name) - 2`: the most characters handle_value_label's snprintf keeps of a set name. */
    const nameCapacity: nat

    /** The context as `memset(&ctx, 0, sizeof(struct context))` leaves it. */
    constructor (nameCapacity: nat)
      ensures count == 0 && labelSets == [] && entries == [] && this.nameCapacity == nameCapacity
    {
      count, labelSets, entries := 0, [], [];
      this.nameCapacity := nameCapacity;
    }

    /**
     * get_label_set: the first set named `valLabels`, or a zeroed set
     * appended at the end; `isNew` tells which.
     */
    method GetLabelSet(valLabels: string) returns (idx: nat, isNew: bool)
      modifies this`labelSets
      ensures FindSet(old(labelSets), valLabels).Some? ==>
                !isNew && labelSets == old(labelSets) && FindSet(old(labelSets), valLabels) == Some(idx)
      ensures FindSet(old(labelSets), valLabels).None? ==>
                isNew && labelSets == old(labelSets) + [EmptySet] && idx == |old(labelSets)|
      ensures idx < |labelSets|
    {
      var i := 0;
      while i < |labelSets|
        invariant 0 <= i <= |labelSets|
        invariant forall j :: 0 <= j < i ==> labelSets[j].name != valLabels
      {
        if labelSets[i].name == valLabels {
          return i, false;
        }
        i := i + 1;
      }
      labelSets := labelSets + [EmptySet];
      return |labelSets| - 1, true;
    }

    /** handle_value_label: a DOUBLE label under a "labels…" set goes to the end of that set. */
    method HandleValueLabel(valLabels: string, value: Value, labelText: string)
      modifies this`labelSets
      ensures labelSets == AddLabel(old(labelSets), valLabels, value, labelText, nameCapacity)
    {
      if value.typ == DoubleType && "labels" <= valLabels {
        var idx, _ := GetLabelSet(valLabels);
        var entry := LabelEntry(KeyOf(value), labelText);
        var labels := labelSets[idx].labels + [entry];
        labelSets := labelSets[idx := LabelSet(Truncate(valLabels, nameCapacity), labels)];
        if FindSet(old(labelSets), valLabels).None? {
          assert labels == [entry];
          assert labelSets == old(labelSets) + [LabelSet(Truncate(valLabels, nameCapacity), [entry])];
        }
      }
    }

    /**
     * handle_variable: checks the type, marks the prologue written, looks up
     * the label set (creating it, then failing, when it is new) and writes
     * the variable's object.
     */
    method HandleVariable(x: Variable, valLabels: Option<string>) returns (fault: Option<Fault>)
      requires x.typ == DoubleType ==> 2 * x.missingCount <= x.missingRanges.Length
      modifies this`count, this`labelSets, this`entries
      ensures var w := Written(x.typ, x.name, x.varLabel, x.missingRanges[..], x.missingCount, old(labelSets), valLabels);
              (w.Ok? ==> fault.None? && entries == old(entries) + [w.value])
              && (w.Err? ==> fault == Some(w.fault) && entries == old(entries))
      ensures labelSets == if Creates(x.typ, old(labelSets), valLabels) then old(labelSets) + [EmptySet] else old(labelSets)
      ensures count == if TypeName(x.typ).Ok? && old(count) == 0 then 1 else old(count)
    {
      var typeName := TypeName(x.typ);
      if typeName.Err? {
        return Some(typeName.fault);
      }
      if count == 0 {
        count := 1;
      }
      var categories: Option<seq<LabelEntry>> := None;
      if valLabels.Some? {
        var idx, isNew := GetLabelSet(valLabels.value);
        if isNew {
          return Some(UnexpectedNewLabelSet);
        }
        categories := Some(labelSets[idx].labels);
      }
      var missing := WriteMissing(x);
      if missing.Err? {
        return Some(missing.fault);
      }
      entries := entries + [Entry(typeName.value, x.name, x.varLabel, categories, missing.value)];
      return None;
    }
  }
}
