/**
 * The aggregate's entry points (median.c): the transition function that
 * accumulates each non-NULL argument into the state array, the average of the
 * two middle elements, and the final function that sorts the state and
 * returns its median.
 */
module Median {
  import opened PgTypes
  import opened PointerArrayUtils
  import opened Comparators
  import opened StateArray

  const TRANSFN_CONTEXT_ERROR := "median_transfn called in non-aggregate context"
  const FINALFN_CONTEXT_ERROR := "median_finalfn called in non-aggregate context"
  const CANNOT_AVERAGE_TEXT := "Cannot calculate average for 2 text values"

  /** Up to 2^24 in magnitude, an integer and its half are exact in single precision. */
  const FLOAT_EXACT_LIMIT := 0x100_0000

  /** What `calculate_avg` returns. */
  datatype AvgResult =
    | Mean(d: Datum)                              // an exact integer mean, truncated toward zero
    | RoundedMean(p: int, q: int)                 // (float)(a + b) / 2 where single precision rounds the sum
    | HalvesSum(x: Float4Bits, y: Float4Bits)     // af / 2 + bf / 2 in single precision
    | NullWithWarning(d: Datum, warning: string)  // PointerGetDatum(NULL) after a WARNING

  /**
   * `calculate_avg`: integers are widened to int64, added, converted to
   * `float`, halved and converted back to int64; text and unsupported types
   * give a NULL pointer Datum and a warning, not an error.
   */
  function CalculateAvg(a: Datum, b: Datum, t: Oid): (r: AvgResult)
    requires IsIntegerType(t) || t == FLOAT4OID ==> a.Word? && b.Word?
    ensures r.NullWithWarning? <==> !IsIntegerType(t) && t != FLOAT4OID
    ensures t == TEXTOID ==> r == NullWithWarning(NullPointerDatum, CANNOT_AVERAGE_TEXT)
    ensures !IsSupportedType(t) ==> r == NullWithWarning(NullPointerDatum, UNSUPPORTED_DATA_TYPE_MEDIAN)
    ensures t == FLOAT4OID ==> r == HalvesSum(DatumGetFloat4(a), DatumGetFloat4(b))
    ensures r.Mean? ==> IsIntegerType(t) && r.d.Word?
  {
    if IsIntegerType(t) then
      var af, bf := DatumGetInt64(a), DatumGetInt64(b);
      var sum := af + bf;
      if -FLOAT_EXACT_LIMIT <= sum <= FLOAT_EXACT_LIMIT then Mean(Int64GetDatum(Half(sum)))
      else RoundedMean(af, bf)
    else if t == FLOAT4OID then HalvesSum(DatumGetFloat4(a), DatumGetFloat4(b))
    else if t == TEXTOID then NullWithWarning(NullPointerDatum, CANNOT_AVERAGE_TEXT)
    else NullWithWarning(NullPointerDatum, UNSUPPORTED_DATA_TYPE_MEDIAN)
  }

  /**
   * For two integers whose sum single precision holds exactly, `calculate_avg`
   * is their mean truncated toward zero: it lies between them, within one
   * half of the exact mean, and does not depend on the order of the two.
   */
  lemma CalculateAvgIsTruncatedMean(t: Oid, x: int, y: int)
    requires IsIntegerType(t) && IsInt64(x) && IsInt64(y)
    requires -FLOAT_EXACT_LIMIT <= x + y <= FLOAT_EXACT_LIMIT
    ensures var m := Half(x + y);
      && CalculateAvg(IntegerDatum(x), IntegerDatum(y), t) == Mean(IntegerDatum(m))
      && CalculateAvg(IntegerDatum(y), IntegerDatum(x), t) == Mean(IntegerDatum(m))
      && (x <= y ==> x <= m <= y)
      && (x + y >= 0 ==> 2 * m <= x + y <= 2 * m + 1)
      && (x + y < 0 ==> 2 * m - 1 <= x + y <= 2 * m)
  {
    DatumIntegerRoundTrip(x);
    DatumIntegerRoundTrip(y);
  }

  /** Every pair of int16 values is averaged exactly. */
  lemma CalculateAvgExactForInt16(x: int, y: int)
    requires IsInt16(x) && IsInt16(y)
    ensures CalculateAvg(IntegerDatum(x), IntegerDatum(y), INT2OID) == Mean(IntegerDatum(Half(x + y)))
  {
    CalculateAvgIsTruncatedMean(INT2OID, x, y);
  }

  /**
   * The two averaging paths differ: `calculate_avg` halves the sum while the
   * `AVG` macro of array.c halves each operand, so 3 and 3 give 3 here and 2 there.
   */
  lemma AveragingPathsDiffer()
    ensures CalculateAvg(IntegerDatum(3), IntegerDatum(3), INT4OID) == Mean(IntegerDatum(3))
    ensures Avg(3, 3) == 2
  {
    DatumIntegerRoundTrip(3);
  }

  /** The Datum a live slot holds, as the final function reads `state->data[k]`. */
  function SlotDatum(s: Slot): (d: Datum)
    ensures s.Int? ==> d == IntegerDatum(s.v)
    ensures s.TextRef? ==> d == PointerGetDatum(s.t)
    ensures s.Float? ==> d == Float4GetDatum(s.bits)
  {
    match s
    case Int(v) => IntegerDatum(v)
    case Float(bits) => Float4GetDatum(bits)
    case TextRef(t) => PointerGetDatum(t)
    case Zeroed => Word(0)
  }

  /**
   * The Datum the final function reads from a slot is the Datum the
   * transition function stored there, for every value of the slot's type.
   */
  lemma SlotDatumReadsStored(t: Oid, x: int, bits: Float4Bits, txt: Text)
    requires IsSupportedType(t)
    ensures var setter := GetPointerArraySetterAndElementSize(t).value.setter;
      && (IsIntegerType(t) && IntRangeOf(t, x) ==> SlotDatum(StoredSlot(setter, IntegerDatum(x))) == IntegerDatum(x))
      && (t == FLOAT4OID ==> SlotDatum(StoredSlot(setter, Float4GetDatum(bits))) == Float4GetDatum(bits))
      && (t == TEXTOID && ValidText(txt) ==> SlotDatum(StoredSlot(setter, PointerGetDatum(txt))) == PointerGetDatum(txt))
  {
    DatumIntegerRoundTrip(x);
    DatumFloat4RoundTrip(bits);
  }

  /** What the final function returns. */
  datatype FinalResult =
    | SqlNull                   // PG_RETURN_NULL()
    | Value(d: Datum)           // the middle element
    | Averaged(avg: AvgResult)  // calculate_avg of the two middle elements

  /** The final function's result on sorted slots: the middle element, or the average of the two middle ones. */
  function FinalOfSorted(t: Oid, s: seq<Slot>): (r: FinalResult)
    requires |s| >= 1 && AllFit(t, s) && IsSupportedType(t)
    ensures |s| % 2 == 1 <==> r.Value?
    ensures |s| % 2 == 1 ==> r == Value(SlotDatum(s[|s| / 2]))
    ensures |s| % 2 == 0 ==> r == Averaged(CalculateAvg(SlotDatum(s[|s| / 2]), SlotDatum(s[|s| / 2 - 1]), t))
  {
    var median := SlotDatum(s[|s| / 2]);
    if |s| % 2 == 1 then Value(median)
    else Averaged(CalculateAvg(median, SlotDatum(s[|s| / 2 - 1]), t))
  }

  /**
   * On sorted integers the final result is the median: the middle element
   * for an odd count, and for an even count (when the middle sum is exact in
   * single precision) the truncated mean of the two middle elements, which
   * lies between them.
   */
  lemma FinalIsMedian(t: Oid, s: seq<Slot>)
    requires IsIntegerType(t) && |s| >= 1 && AllFit(t, s) && Sorted(s)
    requires |s| % 2 == 0 ==> -FLOAT_EXACT_LIMIT <= s[|s| / 2 - 1].v + s[|s| / 2].v <= FLOAT_EXACT_LIMIT
    ensures |s| % 2 == 1 ==> FinalOfSorted(t, s) == Value(IntegerDatum(s[|s| / 2].v))
    ensures |s| % 2 == 0 ==> var lo, hi := s[|s| / 2 - 1].v, s[|s| / 2].v;
      && FinalOfSorted(t, s) == Averaged(Mean(IntegerDatum(Half(lo + hi))))
      && lo <= Half(lo + hi) <= hi
    ensures forall i :: 0 <= i < |s| / 2 ==> s[i].v <= s[|s| / 2].v
    ensures forall i :: |s| / 2 <= i < |s| ==> s[(|s| - 1) / 2].v <= s[i].v
  {
    if |s| % 2 == 0 {
      var lo, hi := s[|s| / 2 - 1].v, s[|s| / 2].v;
      assert Key(s[|s| / 2 - 1]) <= Key(s[|s| / 2]);
      CalculateAvgIsTruncatedMean(t, hi, lo);
    }
  }

  /**
   * The final result does not depend on the order in which the elements were
   * accumulated, nor on how partial states were concatenated.
   */
  lemma {:induction false} FinalIgnoresOrder(t: Oid, a: seq<Slot>, b: seq<Slot>)
    requires IsIntegerType(t) && |a| >= 1 && AllFit(t, a) && multiset(a) == multiset(b)
    ensures AllFit(t, SortSlots(a)) && AllFit(t, SortSlots(b)) && |SortSlots(a)| == |SortSlots(b)| >= 1
    ensures FinalOfSorted(t, SortSlots(a)) == FinalOfSorted(t, SortSlots(b))
  {
    MedianIgnoresOrder(t, a, b);
    assert SortSlots(a) == SortSlots(b);
  }

  lemma {:induction false} FinalIgnoresConcatenationOrder(t: Oid, a: seq<Slot>, b: seq<Slot>)
    requires IsIntegerType(t) && |a + b| >= 1 && AllFit(t, a + b)
    ensures AllFit(t, SortSlots(a + b)) && AllFit(t, SortSlots(b + a))
    ensures |SortSlots(a + b)| == |SortSlots(b + a)| >= 1
    ensures FinalOfSorted(t, SortSlots(a + b)) == FinalOfSorted(t, SortSlots(b + a))
  {
    assert multiset(a + b) == multiset(b + a);
    FinalIgnoresOrder(t, a + b, b + a);
  }

  /** Every non-NULL argument is a Datum the setter can store. */
  predicate AllAccepted(s: Setter, values: seq<Option<Datum>>) {
    forall i :: 0 <= i < |values| && values[i].Some? ==> SetterAccepts(s, values[i].value)
  }

  /** The slots successive transition calls append for a column of arguments, NULLs skipped. */
  function Accumulated(s: Setter, values: seq<Option<Datum>>): seq<Slot>
    requires AllAccepted(s, values)
  {
    if values == [] then []
    else
      var rest := Accumulated(s, values[1..]);
      if values[0].Some? then [StoredSlot(s, values[0].value)] + rest else rest
  }

  /** Accumulating two runs of arguments gives the slots of the first followed by those of the second. */
  lemma {:induction false} AccumulatedConcat(s: Setter, a: seq<Option<Datum>>, b: seq<Option<Datum>>)
    requires AllAccepted(s, a) && AllAccepted(s, b)
    ensures Accumulated(s, a + b) == Accumulated(s, a) + Accumulated(s, b)
  {
    if a == [] {
      assert a + b == b;
    } else {
      assert (a + b)[0] == a[0];
      assert (a + b)[1..] == a[1..] + b;
      AccumulatedConcat(s, a[1..], b);
    }
  }

  /** Only non-NULL arguments are accumulated, at most one slot each. */
  lemma {:induction false} AccumulatedSkipsNulls(s: Setter, values: seq<Option<Datum>>)
    requires AllAccepted(s, values)
    ensures |Accumulated(s, values)| <= |values|
    ensures (forall i :: 0 <= i < |values| ==> values[i].None?) <==> Accumulated(s, values) == []
  {
    if values != [] {
      AccumulatedSkipsNulls(s, values[1..]);
      if values[0].None? && Accumulated(s, values) == [] {
        forall i | 0 <= i < |values|
          ensures values[i].None?
        {
          if i > 0 {
            assert values[i] == values[1..][i - 1];
          }
        }
      }
    }
  }

  /**
   * `median_transfn`: a NULL argument leaves the state as it is; otherwise a
   * NULL state is first created with capacity 1 for the argument's type, and
   * the argument is inserted.
   */
  method Transfn(inAggregate: bool, state: Array?, value: Option<Datum>, argType: Oid) returns (r: Result<Array?>)
    requires state != null ==> state.Valid() && state.elemType == argType
    requires value.Some? ==> DatumFits(argType, value.value)
    modifies if state != null then {state, state.data} else {}
    ensures !inAggregate ==> r == Err(TRANSFN_CONTEXT_ERROR)
    ensures inAggregate && value.None? ==> r == Ok(state)
    ensures state != null && !(inAggregate && value.Some?) ==> unchanged(state) && unchanged(state.data)
    ensures inAggregate && value.Some? && state == null && !IsSupportedType(argType) ==>
              r == Err(GetPointerArraySetterAndElementSize(argType).message)
    ensures r.Ok? && r.value != null ==> r.value.Valid() && r.value.elemType == argType
    ensures inAggregate && value.Some? && state == null && IsSupportedType(argType) ==>
              && r.Ok? && r.value != null && fresh(r.value) && fresh(r.value.data)
              && SetterAccepts(r.value.arraySetter, value.value)
              && r.value.Contents() == [StoredSlot(r.value.arraySetter, value.value)]
    ensures inAggregate && value.Some? && state != null ==>
              && r == Ok(state) && SetterAccepts(state.arraySetter, value.value)
              && state.Contents() == old(state.Contents()) + [StoredSlot(state.arraySetter, value.value)]
              && state.capacity == (if old(state.length) == old(state.capacity) then GrowCapacity(old(state.capacity))
                                    else old(state.capacity))
              && (state.data == old(state.data) || fresh(state.data))
  {
    if !inAggregate {
      return Err(TRANSFN_CONTEXT_ERROR);
    }
    var s := state;
    if value.Some? {
      if s == null {
        var created := Array.Create(argType);
        if created.Err? {
          return Err(created.message);
        }
        s := created.value;
      }
      s.Insert(value.value);
    }
    r := Ok(s);
  }

  /**
   * The transition function called once per row of a column of arguments,
   * from a NULL state: the state stays NULL exactly while every argument is
   * NULL, and otherwise holds the accumulated slots.
   */
  method TransfnOverColumn(values: seq<Option<Datum>>, argType: Oid) returns (state: Array?)
    requires IsSupportedType(argType)
    requires AllAccepted(GetPointerArraySetterAndElementSize(argType).value.setter, values)
    ensures var setter := GetPointerArraySetterAndElementSize(argType).value.setter;
      && (state == null <==> forall i :: 0 <= i < |values| ==> values[i].None?)
      && (state == null ==> Accumulated(setter, values) == [])
      && (state != null ==> fresh(state) && state.Valid() && state.elemType == argType
                            && state.Contents() == Accumulated(setter, values))
  {
    var setter := GetPointerArraySetterAndElementSize(argType).value.setter;
    state := null;
    var i := 0;
    while i < |values|
      invariant 0 <= i <= |values|
      invariant state == null ==> Accumulated(setter, values[..i]) == []
      invariant state != null ==> && fresh(state) && fresh(state.data) && state.Valid()
                                  && state.elemType == argType && state.arraySetter == setter
                                  && state.length >= 1 && state.Contents() == Accumulated(setter, values[..i])
    {
      assert values[..i + 1] == values[..i] + [values[i]];
      AccumulatedConcat(setter, values[..i], [values[i]]);
      var r := Transfn(true, state, values[i], argType);
      state := r.value;
      i := i + 1;
    }
    assert values[..i] == values;
    AccumulatedSkipsNulls(setter, values);
  }

  /**
   * `median_finalfn`: a NULL state (no rows, or only NULL arguments) gives
   * SQL NULL; otherwise the state is sorted and the middle element, or
   * `calculate_avg` of the two middle elements, is returned.
   */
  method Finalfn(inAggregate: bool, state: Array?, collation: Oid) returns (r: Result<FinalResult>)
    requires state != null ==> state.Valid() && state.length >= 1 && state.elemType != FLOAT4OID
    modifies if state != null then {state.data} else {}
    ensures !inAggregate ==> r == Err(FINALFN_CONTEXT_ERROR)
    ensures inAggregate && state == null ==> r == Ok(SqlNull)
    ensures inAggregate && state != null && GetComparator(state.elemType).Err? ==>
              r == Err(GetComparator(state.elemType).message)
    ensures inAggregate && state != null && GetComparator(state.elemType).Ok? ==>
              && state.Valid() && state.Contents() == SortSlots(old(state.Contents()))
              && r == Ok(FinalOfSorted(state.elemType, state.Contents()))
  {
    if !inAggregate {
      return Err(FINALFN_CONTEXT_ERROR);
    }
    if state == null {
      return Ok(SqlNull);
    }
    var sorted := state.Qsort(collation);
    if sorted.Fail? {
      return Err(sorted.message);
    }
    var median := SlotDatum(state.data[state.length / 2]);
    if state.length % 2 == 0 {
      var avg := CalculateAvg(median, SlotDatum(state.data[state.length / 2 - 1]), state.elemType);
      return Ok(Averaged(avg));
    }
    r := Ok(Value(median));
  }
}
