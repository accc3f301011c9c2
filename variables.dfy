/**
 * readstat_variable_t as the conversion layer fills it, and its missing-value
 * table: `missingRanges` holds (lo, hi) pairs at slots 2i and 2i + 1, except
 * that DTA date columns store one value per slot; `missingCount` counts the
 * entries added either way.
 */
module Variables {
  import opened Types

  /** readstat_alignment_t; the zeroed record has UNKNOWN. */
  datatype Alignment = AlignUnknown | AlignLeft | AlignCenter | AlignRight

  /** A zero-filled readstat_value_t: type 0 is READSTAT_TYPE_STRING. */
  const ZeroValue: Value := Value(StringType, false, false, NoTag, NoPayload)

  class Variable {
    var typ: ValueType
    var index: nat
    var name: string
    var format: string
    var varLabel: string
    var storageWidth: nat
    var alignment: Alignment
    /** missingness.missing_ranges; its length is the table's capacity. */
    const missingRanges: array<Value>
    /** missingness.missing_ranges_count */
    var missingCount: nat

    /** Every field as `memset(var, 0, sizeof(readstat_variable_t))` leaves it. */
    predicate Zeroed()
      reads this, missingRanges
    {
      typ == StringType && index == 0 && name == "" && format == "" && varLabel == ""
      && storageWidth == 0 && alignment == AlignUnknown && missingCount == 0
      && forall i :: 0 <= i < missingRanges.Length ==> missingRanges[i] == ZeroValue
    }

    constructor (capacity: nat)
      ensures missingRanges.Length == capacity && fresh(missingRanges) && Zeroed()
    {
      typ, index, name, format, varLabel := StringType, 0, "", "", "";
      storageWidth, alignment, missingCount := 0, AlignUnknown, 0;
      missingRanges := new Value[capacity](_ => ZeroValue);
    }

    /** The memset that starts produce_column_header. */
    method Clear()
      modifies this, missingRanges
      ensures Zeroed()
    {
      typ, index, name, format, varLabel := StringType, 0, "", "", "";
      storageWidth, alignment, missingCount := 0, AlignUnknown, 0;
      forall i | 0 <= i < missingRanges.Length {
        missingRanges[i] := ZeroValue;
      }
    }
  }

  // ---------------------------------------------------------------------
  // Additions to the missing-value table
  // ---------------------------------------------------------------------

  /**
   * One addition: a DOUBLE (lo, hi) pair as readstat_variable_add_missing_double_range
   * stores it, the same tagged DOUBLE twice as dta_add_missing stores it, or
   * one value in the next single slot as DISCRETE DTA dates are stored.
   */
  datatype Add = Range(lo: real, hi: real) | Tagged(d: real) | Slot(v: Value)

  /** The untagged DOUBLE the library stores for a range bound. */
  function DoubleValue(d: real): (r: Value)
    ensures r.typ == DoubleType && !r.isTaggedMissing && !r.isSystemMissing && r.v == DoubleV(d)
  {
    Value(DoubleType, false, false, NoTag, DoubleV(d))
  }

  /** The number of slots an addition needs when `count` entries exist. */
  function Need(count: nat, a: Add): nat {
    if a.Slot? then count + 1 else 2 * count + 2
  }

  /** The number of slots the k-th of the additions `adds`, made from `count` on, needs. */
  function NeedAt(count: nat, adds: seq<Add>, k: nat): nat
    requires k < |adds|
  {
    Need(count + k, adds[k])
  }

  /** The additions `adds`, made from `count` on, stay inside a table of `cap` slots. */
  predicate Fits(count: nat, adds: seq<Add>, cap: nat) {
    forall k :: 0 <= k < |adds| ==> NeedAt(count, adds, k) <= cap
  }

  /**
   * A write to slot `i`. A write past the end is undefined behaviour in C;
   * the methods below require room, so the drop here is never reached by them.
   */
  function Put(slots: seq<Value>, i: nat, v: Value): (r: seq<Value>)
    ensures |r| == |slots|
  {
    if i < |slots| then slots[i := v] else slots
  }

  /** The first value of the pair a pair addition stores as entry `i`. */
  function Low(a: Add, i: nat): Value
    requires !a.Slot?
  {
    if a.Range? then DoubleValue(a.lo) else TaggedDouble(i, a.d)
  }

  /** The second value of the pair a pair addition stores as entry `i`. */
  function High(a: Add, i: nat): Value
    requires !a.Slot?
  {
    if a.Range? then DoubleValue(a.hi) else TaggedDouble(i, a.d)
  }

  /** The table after one addition when `count` entries exist; the count then grows by one. */
  function Apply(slots: seq<Value>, count: nat, a: Add): (r: seq<Value>)
    ensures |r| == |slots|
  {
    if a.Slot? then Put(slots, count, a.v)
    else Put(Put(slots, 2 * count, Low(a, count)), 2 * count + 1, High(a, count))
  }

  /** The table after the additions `adds` made in order from `count` on. */
  function ApplyAll(slots: seq<Value>, count: nat, adds: seq<Add>): (r: seq<Value>)
    ensures |r| == |slots|
    decreases |adds|
  {
    if |adds| == 0 then slots
    else Apply(ApplyAll(slots, count, adds[..|adds| - 1]), count + |adds| - 1, adds[|adds| - 1])
  }

  /** Room for two batches is room for each, and conversely. */
  lemma FitsAppend(count: nat, a: seq<Add>, b: seq<Add>, cap: nat)
    ensures Fits(count, a + b, cap) <==> Fits(count, a, cap) && Fits(count + |a|, b, cap)
  {
    if Fits(count, a, cap) && Fits(count + |a|, b, cap) {
      forall k | 0 <= k < |a + b| ensures NeedAt(count, a + b, k) <= cap {
        if k >= |a| {
          assert (a + b)[k] == b[k - |a|];
          assert NeedAt(count + |a|, b, k - |a|) <= cap;
        } else {
          assert (a + b)[k] == a[k];
          assert NeedAt(count, a, k) <= cap;
        }
      }
    }
    if Fits(count, a + b, cap) {
      var after := count + |a|;
      forall k | 0 <= k < |b| ensures NeedAt(after, b, k) <= cap {
        assert (a + b)[|a| + k] == b[k];
        assert NeedAt(count, a + b, |a| + k) <= cap;
      }
      forall k | 0 <= k < |a| ensures NeedAt(count, a, k) <= cap {
        assert (a + b)[k] == a[k];
        assert NeedAt(count, a + b, k) <= cap;
      }
    }
  }

  /** Room for a batch is room for its first `n` additions. */
  lemma FitsFront(count: nat, adds: seq<Add>, n: nat, cap: nat)
    requires Fits(count, adds, cap) && n <= |adds|
    ensures Fits(count, adds[..n], cap)
  {
    forall k | 0 <= k < n ensures NeedAt(count, adds[..n], k) <= cap {
      assert adds[..n][k] == adds[k];
      assert NeedAt(count, adds, k) <= cap;
    }
  }

  /** Additions made in two batches give the table the whole sequence gives. */
  lemma {:induction false} ApplyAllAppend(slots: seq<Value>, count: nat, a: seq<Add>, b: seq<Add>)
    ensures ApplyAll(slots, count, a + b) == ApplyAll(ApplyAll(slots, count, a), count + |a|, b)
    decreases |b|
  {
    if |b| == 0 {
      assert a + b == a;
    } else {
      var front := b[..|b| - 1];
      assert (a + b)[..|a + b| - 1] == a + front;
      assert (a + b)[|a + b| - 1] == b[|b| - 1];
      ApplyAllAppend(slots, count, a, front);
    }
  }

  /** One more addition after a batch. */
  lemma ApplyAllSnoc(slots: seq<Value>, count: nat, a: seq<Add>, x: Add)
    ensures ApplyAll(slots, count, a + [x]) == Apply(ApplyAll(slots, count, a), count + |a|, x)
  {
    assert (a + [x])[..|a|] == a;
  }

  /** A batch of one is that one addition. */
  lemma ApplyAllOne(slots: seq<Value>, count: nat, x: Add)
    ensures ApplyAll(slots, count, [x]) == Apply(slots, count, x)
  {
    assert [x][..0] == [];
  }

  /** Every addition stores a pair. */
  predicate AllPairs(adds: seq<Add>) {
    forall k :: 0 <= k < |adds| ==> !adds[k].Slot?
  }

  /** Pair additions from `count` on leave the slots before `2 * count` alone. */
  lemma {:induction false} PairsKeepEarlier(slots: seq<Value>, count: nat, adds: seq<Add>)
    requires AllPairs(adds)
    ensures forall i :: 0 <= i < 2 * count && i < |slots| ==> ApplyAll(slots, count, adds)[i] == slots[i]
    decreases |adds|
  {
    if |adds| > 0 {
      var front := adds[..|adds| - 1];
      assert AllPairs(front) by {
        forall k | 0 <= k < |front| ensures !front[k].Slot? {
          assert front[k] == adds[k];
        }
      }
      PairsKeepEarlier(slots, count, front);
    }
  }

  /**
   * After pair additions from `count` on, entry `count + k` is the k-th
   * pair, in slots 2 * (count + k) and 2 * (count + k) + 1.
   */
  lemma {:induction false} PairsInOrder(slots: seq<Value>, count: nat, adds: seq<Add>)
    requires Fits(count, adds, |slots|) && AllPairs(adds)
    ensures forall k :: 0 <= k < |adds| ==>
              Need(count + k, adds[k]) == 2 * (count + k) + 2 <= |slots|
              && ApplyAll(slots, count, adds)[2 * (count + k)] == Low(adds[k], count + k)
              && ApplyAll(slots, count, adds)[2 * (count + k) + 1] == High(adds[k], count + k)
    decreases |adds|
  {
    if |adds| > 0 {
      var n := |adds| - 1;
      var front := adds[..n];
      FitsFront(count, adds, n, |slots|);
      PairsInOrder(slots, count, front);
      var prev := ApplyAll(slots, count, front);
      assert ApplyAll(slots, count, adds) == Apply(prev, count + n, adds[n]);
      assert NeedAt(count, adds, n) <= |slots|;
    }
  }

  /**
   * What dta_add_missing leaves behind: after tagged additions from `count`
   * on, entry `count + k` is the k-th code, twice, tagged with its own index.
   */
  lemma TaggedPairs(slots: seq<Value>, count: nat, adds: seq<Add>)
    requires Fits(count, adds, |slots|)
    requires forall k :: 0 <= k < |adds| ==> adds[k].Tagged?
    ensures forall k :: 0 <= k < |adds| ==>
              Need(count + k, adds[k]) == 2 * (count + k) + 2 <= |slots|
              && ApplyAll(slots, count, adds)[2 * (count + k)] == TaggedDouble(count + k, adds[k].d)
              && ApplyAll(slots, count, adds)[2 * (count + k) + 1] == TaggedDouble(count + k, adds[k].d)
  {
    assert AllPairs(adds);
    PairsInOrder(slots, count, adds);
    forall k | 0 <= k < |adds|
      ensures Low(adds[k], count + k) == TaggedDouble(count + k, adds[k].d) == High(adds[k], count + k)
    {
    }
  }

  /** After (lo, hi) range additions from `count` on, entry `count + k` holds the k-th bounds as DOUBLEs. */
  lemma RangePairs(slots: seq<Value>, count: nat, adds: seq<Add>)
    requires Fits(count, adds, |slots|)
    requires forall k :: 0 <= k < |adds| ==> adds[k].Range?
    ensures forall k :: 0 <= k < |adds| ==>
              Need(count + k, adds[k]) == 2 * (count + k) + 2 <= |slots|
              && ApplyAll(slots, count, adds)[2 * (count + k)] == DoubleValue(adds[k].lo)
              && ApplyAll(slots, count, adds)[2 * (count + k) + 1] == DoubleValue(adds[k].hi)
  {
    assert AllPairs(adds);
    PairsInOrder(slots, count, adds);
    forall k | 0 <= k < |adds|
      ensures Low(adds[k], count + k) == DoubleValue(adds[k].lo) && High(adds[k], count + k) == DoubleValue(adds[k].hi)
    {
    }
  }

  /** After single-slot additions from `count` on, slot `count + k` holds the k-th value. */
  lemma {:induction false} SlotsInOrder(slots: seq<Value>, count: nat, adds: seq<Add>)
    requires Fits(count, adds, |slots|)
    requires forall k :: 0 <= k < |adds| ==> adds[k].Slot?
    ensures forall k :: 0 <= k < |adds| ==>
              Need(count + k, adds[k]) == count + k + 1 <= |slots|
              && ApplyAll(slots, count, adds)[count + k] == adds[k].v
    ensures forall i :: 0 <= i < count && i < |slots| ==> ApplyAll(slots, count, adds)[i] == slots[i]
    decreases |adds|
  {
    if |adds| > 0 {
      var n := |adds| - 1;
      var front := adds[..n];
      FitsFront(count, adds, n, |slots|);
      SlotsInOrder(slots, count, front);
      var prev := ApplyAll(slots, count, front);
      assert ApplyAll(slots, count, adds) == Apply(prev, count + n, adds[n]);
      assert NeedAt(count, adds, n) <= |slots|;
    }
  }

  /**
   * readstat_variable_add_missing_double_range, which is not part of this
   * model, by its contract: one (lo, hi) pair appended after the existing
   * entries.
   */
  method AddMissingDoubleRange(x: Variable, lo: real, hi: real)
    requires 2 * x.missingCount + 1 < x.missingRanges.Length
    modifies x`missingCount, x.missingRanges
    ensures x.missingRanges[..] == Apply(old(x.missingRanges[..]), old(x.missingCount), Range(lo, hi))
    ensures x.missingCount == old(x.missingCount) + 1
  {
    x.missingRanges[2 * x.missingCount] := DoubleValue(lo);
    x.missingRanges[2 * x.missingCount + 1] := DoubleValue(hi);
    x.missingCount := x.missingCount + 1;
  }
}
