/**
 * The aggregate's state (array.c): a growable array of typed slots with a
 * capacity, a length, the element type and the setter and slot width the
 * registry gives for that type; sorting it and picking its median.
 */
module StateArray {
  import opened PgTypes
  import opened PointerArrayUtils
  import opened Comparators

  // ---------------------------------------------------------------------
  // Capacity growth

  /** The capacity `array_insert` asks for when the array is full, as written: twice the old one. */
  function DoubledCapacity(capacity: int): int {
    capacity * 2
  }

  /**
   * Doubling makes room for the next element from every positive capacity,
   * but a full array of capacity 0 keeps capacity 0, so the element is then
   * written to slot 0 of an empty allocation.
   */
  lemma DoubledCapacityStaysZero()
    ensures forall c: int :: c >= 1 ==> DoubledCapacity(c) > c
    ensures DoubledCapacity(0) == 0 && !(0 < DoubledCapacity(0))
  {
  }

  /** The growth `array_insert` evidently intends: double, and at least one slot. */
  function GrowCapacity(capacity: nat): (r: nat)
    ensures r > capacity
    ensures capacity >= 1 ==> r == DoubledCapacity(capacity)
  {
    if capacity == 0 then 1 else DoubledCapacity(capacity)
  }

  // ---------------------------------------------------------------------
  // The sort outcome

  /** The ordering key of a slot: its integer value. */
  function Key(s: Slot): int {
    if s.Int? then s.v else 0
  }

  predicate Sorted(s: seq<Slot>) {
    forall i, j :: 0 <= i < j < |s| ==> Key(s[i]) <= Key(s[j])
  }

  predicate AllInt(s: seq<Slot>) {
    forall i :: 0 <= i < |s| ==> s[i].Int?
  }

  predicate AllFit(t: Oid, s: seq<Slot>) {
    forall i :: 0 <= i < |s| ==> SlotFits(t, s[i])
  }

  /** The order `qsort` produces with a consistent integer comparator is the order of the keys. */
  lemma KeyOrderIsFixedComparator(a: Slot, b: Slot)
    requires a.Int? && b.Int? && IsInt64(a.v) && IsInt64(b.v)
    ensures Key(a) <= Key(b) <==> DatumComparatorIntegerFixed(WordOf(a.v), WordOf(b.v)) <= 0
  {
    FixedComparatorCorrect(a.v, b.v);
  }

  function InsertSorted(x: Slot, s: seq<Slot>): seq<Slot> {
    if s == [] then [x]
    else if Key(x) <= Key(s[0]) then [x] + s
    else [s[0]] + InsertSorted(x, s[1..])
  }

  /** The outcome of sorting the live slots: an insertion sort by key. */
  function SortSlots(s: seq<Slot>): seq<Slot> {
    if s == [] then [] else InsertSorted(s[0], SortSlots(s[1..]))
  }

  lemma {:induction false} InsertSortedPermutes(x: Slot, s: seq<Slot>)
    ensures multiset(InsertSorted(x, s)) == multiset(s) + multiset{x}
  {
    if s != [] && Key(x) > Key(s[0]) {
      InsertSortedPermutes(x, s[1..]);
      assert s == [s[0]] + s[1..];
    }
  }

  lemma {:induction false} InsertSortedSorts(x: Slot, s: seq<Slot>)
    requires Sorted(s)
    ensures Sorted(InsertSorted(x, s))
  {
    if s != [] && Key(x) > Key(s[0]) {
      var rest := InsertSorted(x, s[1..]);
      InsertSortedSorts(x, s[1..]);
      InsertSortedPermutes(x, s[1..]);
      forall k | 0 <= k < |rest|
        ensures Key(s[0]) <= Key(rest[k])
      {
        assert rest[k] in multiset(rest);
        assert rest[k] == x || rest[k] in multiset(s[1..]);
        if rest[k] != x {
          var j :| 0 <= j < |s[1..]| && s[1..][j] == rest[k];
          assert s[j + 1] == rest[k];
        }
      }
    }
  }

  /** Sorting yields an ordered permutation of the live slots. */
  lemma {:induction false} SortSlotsCorrect(s: seq<Slot>)
    ensures Sorted(SortSlots(s))
    ensures multiset(SortSlots(s)) == multiset(s)
  {
    if s != [] {
      SortSlotsCorrect(s[1..]);
      InsertSortedSorts(s[0], SortSlots(s[1..]));
      InsertSortedPermutes(s[0], SortSlots(s[1..]));
      assert s == [s[0]] + s[1..];
    }
  }

  lemma MultisetOfTail(s: seq<Slot>)
    requires |s| >= 1
    ensures multiset(s[1..]) == multiset(s) - multiset{s[0]}
    ensures multiset(s) == multiset{s[0]} + multiset(s[1..])
  {
    assert s == [s[0]] + s[1..];
  }

  /** The first element of an ordered sequence has the least key. */
  lemma SortedHeadIsLeast(s: seq<Slot>, x: Slot)
    requires Sorted(s) && x in multiset(s)
    ensures |s| >= 1 && Key(s[0]) <= Key(x)
  {
    var i :| 0 <= i < |s| && s[i] == x;
  }

  lemma SortedTail(s: seq<Slot>)
    requires |s| >= 1 && Sorted(s)
    ensures Sorted(s[1..])
  {
    forall i, j | 0 <= i < j < |s[1..]|
      ensures Key(s[1..][i]) <= Key(s[1..][j])
    {
      assert s[1..][i] == s[i + 1] && s[1..][j] == s[j + 1];
    }
  }

  /** Two ordered arrangements of the same non-empty integer elements start with the same element. */
  lemma SortedPermutationsSameHead(a: seq<Slot>, b: seq<Slot>)
    requires |a| >= 1 && AllInt(a) && Sorted(a) && Sorted(b) && multiset(a) == multiset(b)
    ensures |b| >= 1 && a[0] == b[0]
  {
    assert a[0] in multiset(a);
    SortedHeadIsLeast(b, a[0]);
    SortedHeadIsLeast(a, b[0]);
    var i :| 0 <= i < |a| && a[i] == b[0];
    assert b[0].Int? && a[0].Int?;
  }

  /** Two ordered arrangements of the same integer elements are the same sequence. */
  lemma {:induction false} SortedPermutationsEqual(a: seq<Slot>, b: seq<Slot>)
    requires AllInt(a) && Sorted(a) && Sorted(b) && multiset(a) == multiset(b)
    ensures a == b
  {
    if a == [] {
      assert |b| == |multiset(b)| == 0;
    } else {
      SortedPermutationsSameHead(a, b);
      MultisetOfTail(a);
      MultisetOfTail(b);
      SortedTail(a);
      SortedTail(b);
      assert AllInt(a[1..]) by {
        forall i | 0 <= i < |a[1..]|
          ensures a[1..][i].Int?
        {
          assert a[1..][i] == a[i + 1];
        }
      }
      SortedPermutationsEqual(a[1..], b[1..]);
      assert a == [a[0]] + a[1..] && b == [b[0]] + b[1..];
    }
  }

  /** The sorted slots, hence the median, depend only on which elements were accumulated. */
  lemma {:induction false} SortSlotsOnlyDependsOnElements(a: seq<Slot>, b: seq<Slot>)
    requires AllInt(a) && multiset(a) == multiset(b)
    ensures SortSlots(a) == SortSlots(b)
  {
    SortSlotsCorrect(a);
    SortSlotsCorrect(b);
    var sa := SortSlots(a);
    forall i | 0 <= i < |sa|
      ensures sa[i].Int?
    {
      assert sa[i] in multiset(a);
    }
    SortedPermutationsEqual(sa, SortSlots(b));
  }

  /** Sorting keeps every element valid for the array's type. */
  lemma {:induction false} SortSlotsFit(t: Oid, s: seq<Slot>)
    requires AllFit(t, s)
    ensures AllFit(t, SortSlots(s)) && |SortSlots(s)| == |s|
  {
    SortSlotsCorrect(s);
    var sorted := SortSlots(s);
    assert |sorted| == |multiset(sorted)| == |s|;
    forall i | 0 <= i < |sorted|
      ensures SlotFits(t, sorted[i])
    {
      assert sorted[i] in multiset(s);
    }
  }

  // ---------------------------------------------------------------------
  // The median of sorted slots

  /** C's `x / 2`, which truncates toward zero. */
  function Half(x: int): (q: int)
    ensures x >= 0 ==> 0 <= x - 2 * q <= 1
    ensures x < 0 ==> -1 <= x - 2 * q <= 0
  {
    if x >= 0 then x / 2 else -((-x) / 2)
  }

  /** The `AVG(a,b)` macro: `a/2 + b/2`. */
  function Avg(a: int, b: int): int {
    Half(a) + Half(b)
  }

  /**
   * AVG is symmetric, within one of the exact mean, and keeps the result in
   * the range of the operands' type, so the int16/int32/int64 result needs no
   * further truncation.
   */
  lemma AvgBounds(a: int, b: int)
    ensures Avg(a, b) == Avg(b, a)
    ensures -2 <= a + b - 2 * Avg(a, b) <= 2
    ensures IsInt16(a) && IsInt16(b) ==> IsInt16(Avg(a, b))
    ensures IsInt32(a) && IsInt32(b) ==> IsInt32(Avg(a, b))
    ensures IsInt64(a) && IsInt64(b) ==> IsInt64(Avg(a, b))
    ensures a <= b ==> a - 1 <= Avg(a, b) <= b + 1
  {
  }

  /** Halving each operand first loses both remainders: the AVG of 3 and 3 is 2. */
  lemma AvgOfEqualOddValues()
    ensures Avg(3, 3) == 2 && Avg(-3, -3) == -2
  {
  }

  /** The datum array_get_median returns, or the floating-point mean it would compute. */
  datatype MedianValue =
    | Median(d: Datum)
    | Float4Mean(a: Float4Bits, b: Float4Bits)   // AVG on two float4 values, not modelled further
    | Warned(d: Datum, warning: string)           // a Datum returned with a WARNING

  const CANNOT_MEAN_TEXT := "Cannot calculate mean for text array with even length"
  const UNSUPPORTED_DATA_TYPE_MEDIAN := "Unsupported data type"

  predicate IsIntegerType(t: Oid) {
    t == INT2OID || t == INT4OID || t == TIMESTAMPTZOID
  }

  /** The integer value a slot of an integer type holds. */
  function IntegerDatum(x: int): Datum { Word(WordOf(x)) }

  /** The final switch of `array_get_median`, on slots already sorted. */
  function MedianOfSorted(t: Oid, s: seq<Slot>): (r: Result<MedianValue>)
    requires |s| >= 1 && AllFit(t, s)
    ensures r.Err? <==> !IsSupportedType(t)
    ensures r.Err? ==> r.message == UNSUPPORTED_DATA_TYPE_MEDIAN
    ensures IsIntegerType(t) ==> r.Ok? && r.value.Median? && r.value.d.Word?
    ensures IsIntegerType(t) && |s| % 2 == 1 ==> r == Ok(Median(IntegerDatum(s[|s| / 2].v)))
    ensures IsIntegerType(t) && |s| % 2 == 0 ==> r == Ok(Median(IntegerDatum(Avg(s[|s| / 2].v, s[|s| / 2 - 1].v))))
    ensures t == FLOAT4OID && |s| % 2 == 1 ==> r == Ok(Median(Float4GetDatum(s[|s| / 2].bits)))
    ensures t == TEXTOID && |s| % 2 == 0 ==> r == Ok(Warned(NullPointerDatum, CANNOT_MEAN_TEXT))
    ensures t == TEXTOID && |s| % 2 == 1 ==> r == Ok(Median(PointerGetDatum(s[|s| / 2].t)))
    ensures t == FLOAT4OID && |s| % 2 == 0 ==> r == Ok(Float4Mean(s[|s| / 2].bits, s[|s| / 2 - 1].bits))
  {
    var mid := |s| / 2;
    var m1 := s[mid];
    if |s| % 2 == 1 then
      if t == INT2OID then Ok(Median(Int16GetDatum(m1.v)))
      else if t == INT4OID then Ok(Median(Int32GetDatum(m1.v)))
      else if t == TIMESTAMPTZOID then Ok(Median(Int64GetDatum(m1.v)))
      else if t == FLOAT4OID then Ok(Median(Float4GetDatum(m1.bits)))
      else if t == TEXTOID then Ok(Median(PointerGetDatum(m1.t)))
      else Err(UNSUPPORTED_DATA_TYPE_MEDIAN)
    else
      var m2 := s[mid - 1];
      if t == INT2OID then Ok(Median(Int16GetDatum(Avg(m1.v, m2.v))))
      else if t == INT4OID then Ok(Median(Int32GetDatum(Avg(m1.v, m2.v))))
      else if t == TIMESTAMPTZOID then Ok(Median(Int64GetDatum(Avg(m1.v, m2.v))))
      else if t == FLOAT4OID then Ok(Float4Mean(m1.bits, m2.bits))
      else if t == TEXTOID then Ok(Warned(NullPointerDatum, CANNOT_MEAN_TEXT))
      else Err(UNSUPPORTED_DATA_TYPE_MEDIAN)
  }

  /** The integer an integer-typed median Datum stands for. */
  predicate IntRangeOf(t: Oid, x: int) {
    if t == INT2OID then IsInt16(x) else if t == INT4OID then IsInt32(x) else IsInt64(x)
  }

  /**
   * For an odd number of sorted integers the median is the middle element:
   * no element before it is larger and no element after it is smaller.
   */
  lemma MedianOddIsMiddle(t: Oid, s: seq<Slot>)
    requires IsIntegerType(t) && AllFit(t, s) && Sorted(s) && |s| % 2 == 1
    ensures var m := s[|s| / 2].v;
      && MedianOfSorted(t, s) == Ok(Median(IntegerDatum(m)))
      && (forall i :: 0 <= i < |s| / 2 ==> s[i].v <= m)
      && (forall i :: |s| / 2 < i < |s| ==> m <= s[i].v)
  {
  }

  /**
   * For an even number of sorted integers the median is AVG of the two middle
   * elements `lo <= hi`: it lies within one of the segment between them, and
   * stays in the range of the type.
   */
  lemma MedianEvenAveragesMiddlePair(t: Oid, s: seq<Slot>)
    requires IsIntegerType(t) && AllFit(t, s) && Sorted(s) && |s| >= 2 && |s| % 2 == 0
    ensures var lo, hi := s[|s| / 2 - 1].v, s[|s| / 2].v;
      && lo <= hi
      && MedianOfSorted(t, s) == Ok(Median(IntegerDatum(Avg(hi, lo))))
      && lo - 1 <= Avg(hi, lo) <= hi + 1
      && IntRangeOf(t, Avg(hi, lo))
      && (forall i :: 0 <= i < |s| / 2 - 1 ==> s[i].v <= lo)
      && (forall i :: |s| / 2 < i < |s| ==> hi <= s[i].v)
  {
    var lo, hi := s[|s| / 2 - 1].v, s[|s| / 2].v;
    assert Key(s[|s| / 2 - 1]) <= Key(s[|s| / 2]);
    AvgBounds(lo, hi);
  }

  /**
   * The median of integer elements does not depend on the order they were
   * accumulated in, nor on how partial states were concatenated.
   */
  lemma {:induction false} MedianIgnoresOrder(t: Oid, a: seq<Slot>, b: seq<Slot>)
    requires IsIntegerType(t) && |a| >= 1 && AllFit(t, a) && multiset(a) == multiset(b)
    ensures AllFit(t, b) && |SortSlots(a)| == |SortSlots(b)| >= 1
    ensures AllFit(t, SortSlots(a)) && AllFit(t, SortSlots(b))
    ensures SortSlots(a) == SortSlots(b)
    ensures MedianOfSorted(t, SortSlots(a)) == MedianOfSorted(t, SortSlots(b))
  {
    forall i | 0 <= i < |b|
      ensures SlotFits(t, b[i])
    {
      assert b[i] in multiset(a);
    }
    assert |b| == |multiset(b)| == |a|;
    SortSlotsFit(t, a);
    SortSlotsFit(t, b);
    SortSlotsOnlyDependsOnElements(a, b);
  }

  // ---------------------------------------------------------------------
  // The Array struct

  /** `memcpy`/`memmove` of `n` slots from the start of `src` to `dst[dstFrom..]`. */
  method CopySlots(src: array<Slot>, dst: array<Slot>, dstFrom: nat, n: nat)
    requires src != dst && n <= src.Length && dstFrom + n <= dst.Length
    modifies dst
    ensures dst[..dstFrom] == old(dst[..dstFrom])
    ensures dst[dstFrom..dstFrom + n] == src[..n]
    ensures dst[dstFrom + n..] == old(dst[dstFrom + n..])
  {
    ghost var before := dst[..];
    var i := 0;
    while i < n
      invariant 0 <= i <= n && |before| == dst.Length
      invariant forall k :: 0 <= k < dstFrom ==> dst[k] == before[k]
      invariant forall k :: 0 <= k < i ==> dst[dstFrom + k] == src[k]
      invariant forall k :: dstFrom + i <= k < dst.Length ==> dst[k] == before[k]
    {
      dst[dstFrom + i] := src[i];
      i := i + 1;
    }
    assert dst[..dstFrom] == before[..dstFrom];
    assert dst[dstFrom + n..] == before[dstFrom + n..];
  }

  /** `_alloc_array_data`: a zero-filled allocation of `capacity` slots. */
  method AllocArrayData(capacity: int, elementSize: nat) returns (a: array<Slot>)
    requires capacity >= 0
    ensures fresh(a) && a.Length == capacity
    ensures forall i :: 0 <= i < capacity ==> a[i] == Zeroed
  {
    a := new Slot[capacity](_ => Zeroed);
  }

  class Array {
    var capacity: int
    var length: int
    var elemType: Oid
    var arraySetter: Setter
    var elementSize: nat
    var data: array<Slot>

    /** The live slots `[0, length)` hold valid elements of the array's type. */
    ghost predicate Valid()
      reads this, data
    {
      && 0 <= length <= capacity == data.Length
      && GetPointerArraySetterAndElementSize(elemType) == Ok(SlotLayout(arraySetter, elementSize))
      && forall i :: 0 <= i < length ==> SlotFits(elemType, data[i])
    }

    /** The elements accumulated so far. */
    ghost function Contents(): (s: seq<Slot>)
      reads this, data
      requires Valid()
      ensures |s| == length && AllFit(elemType, s)
    {
      data[..length]
    }

    constructor Init(t: Oid, layout: SlotLayout, cap: int)
      requires GetPointerArraySetterAndElementSize(t) == Ok(layout) && cap >= 0
      ensures Valid() && fresh(data)
      ensures capacity == cap && length == 0 && elemType == t
      ensures arraySetter == layout.setter && elementSize == layout.elementSize
      ensures Contents() == []
    {
      var slots := AllocArrayData(cap, layout.elementSize);
      capacity := cap;
      length := 0;
      elemType := t;
      arraySetter := layout.setter;
      elementSize := layout.elementSize;
      data := slots;
    }

    /**
     * `array_create_with_capacity`: an empty array of the given capacity whose
     * setter and slot width come from the registry; an unsupported type aborts.
     */
    static method CreateWithCapacity(t: Oid, cap: int) returns (r: Result<Array>)
      requires cap >= 0
      ensures r.Ok? <==> IsSupportedType(t)
      ensures r.Err? ==> r.message == GetPointerArraySetterAndElementSize(t).message
      ensures r.Ok? ==> fresh(r.value) && fresh(r.value.data) && r.value.Valid()
      ensures r.Ok? ==> r.value.capacity == cap && r.value.length == 0 && r.value.elemType == t
    {
      var layout := GetPointerArraySetterAndElementSize(t);
      if layout.Err? {
        return Err(layout.message);
      }
      var a := new Array.Init(t, layout.value, cap);
      r := Ok(a);
    }

    /** `array_create`: capacity 1. */
    static method Create(t: Oid) returns (r: Result<Array>)
      ensures r.Ok? <==> IsSupportedType(t)
      ensures r.Err? ==> r.message == GetPointerArraySetterAndElementSize(t).message
      ensures r.Ok? ==> fresh(r.value) && fresh(r.value.data) && r.value.Valid()
      ensures r.Ok? ==> r.value.capacity == 1 && r.value.length == 0 && r.value.elemType == t
    {
      r := CreateWithCapacity(t, 1);
    }

    /**
     * `_array_extend_capacity`: a new zero-filled allocation of `newCapacity`
     * slots into which the old `capacity` slots are copied.
     */
    method ExtendCapacity(newCapacity: int)
      requires Valid() && newCapacity >= capacity
      modifies this
      ensures Valid() && fresh(data)
      ensures capacity == newCapacity && length == old(length) && elemType == old(elemType)
      ensures arraySetter == old(arraySetter) && elementSize == old(elementSize)
      ensures data[..old(capacity)] == old(data[..])
      ensures forall i :: old(capacity) <= i < newCapacity ==> data[i] == Zeroed
      ensures Contents() == old(Contents())
    {
      var newData := AllocArrayData(newCapacity, elementSize);
      CopySlots(data, newData, 0, capacity);
      data := newData;
      capacity := newCapacity;
    }

    /**
     * `array_insert`: grows a full array, then stores `value` with the type's
     * setter in slot `length` and increments `length`.
     */
    method Insert(value: Datum)
      requires Valid() && DatumFits(elemType, value)
      modifies this, data
      ensures Valid() && SetterAccepts(arraySetter, value)
      ensures Contents() == old(Contents()) + [StoredSlot(arraySetter, value)]
      ensures capacity == if old(length) == old(capacity) then GrowCapacity(old(capacity)) else old(capacity)
      ensures elemType == old(elemType) && arraySetter == old(arraySetter) && elementSize == old(elementSize)
      ensures old(length) < old(capacity) ==> data == old(data)
      ensures old(length) == old(capacity) ==> fresh(data)
    {
      if length == capacity {
        ExtendCapacity(GrowCapacity(capacity));
      }
      ghost var before := data[..];
      PointerArraySet(arraySetter, data, value, length);
      StoredSlotFits(elemType, value);
      length := length + 1;
      assert data[..length] == before[..length - 1] + [StoredSlot(arraySetter, value)];
    }

    /** The `memcpy` of `array_combine`: copies the live slots of `source` after the live slots of this array. */
    method Append(source: Array)
      requires Valid() && source.Valid() && source != this && source.data != data
      requires source.elemType == elemType && capacity - length >= source.length
      modifies this, data
      ensures Valid() && Contents() == old(Contents()) + source.Contents()
      ensures capacity == old(capacity) && data == old(data) && elemType == old(elemType)
    {
      ghost var prefix := data[..length];
      CopySlots(source.data, data, length, source.length);
      length := length + source.length;
      assert data[..length] == prefix + source.data[..source.length];
      forall i | 0 <= i < length
        ensures SlotFits(elemType, data[i])
      {
        if i >= |prefix| {
          assert data[i] == source.data[i - |prefix|];
        }
      }
    }

    /**
     * `array_qsort`: sorts the live slots with the type's comparator. Both the
     * `qsort` and the `qsort_arg` branch use the same comparator, which ignores
     * the collation; a type without a comparator aborts.
     */
    method Qsort(collation: Oid) returns (o: Outcome)
      requires Valid() && elemType != FLOAT4OID
      modifies data
      ensures Valid()
      ensures var cmp := GetComparator(elemType);
        if cmp.Ok? then o == Pass && Contents() == SortSlots(old(Contents()))
        else o == Fail(cmp.message) && Contents() == old(Contents())
      ensures o == Pass ==> Sorted(Contents()) && multiset(Contents()) == multiset(old(Contents()))
    {
      var cmp := GetComparator(elemType);
      if cmp.Err? {
        return Fail(cmp.message);
      }
      ghost var live := data[..length];
      var sorted := SortSlots(data[..length]);
      SortSlotsCorrect(live);
      SortSlotsFit(elemType, live);
      var i := 0;
      while i < length
        invariant 0 <= i <= length
        invariant forall k :: 0 <= k < i ==> data[k] == sorted[k]
      {
        data[i] := sorted[i];
        i := i + 1;
      }
      assert data[..length] == sorted;
      o := Pass;
    }

    /**
     * `array_get_median`: sorts, then returns the middle element for an odd
     * length and AVG of the two middle elements for an even one.
     */
    method GetMedian(collation: Oid) returns (r: Result<MedianValue>)
      requires Valid() && length >= 1 && elemType != FLOAT4OID
      modifies data
      ensures Valid()
      ensures GetComparator(elemType).Err? ==>
        r == Err(GetComparator(elemType).message) && Contents() == old(Contents())
      ensures GetComparator(elemType).Ok? ==>
        Contents() == SortSlots(old(Contents())) && r == MedianOfSorted(elemType, Contents())
    {
      var sorted := Qsort(collation);
      if sorted.Fail? {
        return Err(sorted.message);
      }
      r := MedianOfSorted(elemType, data[..length]);
    }
  }

  /**
   * `array_combine`: appends the live slots of `source` to `dest`, creating
   * `dest` with capacity exactly `source.length` when it is NULL and growing
   * it once, to exactly the combined length, when it lacks room.
   */
  method Combine(dest: Array?, source: Array) returns (r: Array)
    requires source.Valid()
    requires dest != null ==> dest.Valid() && dest != source && dest.data != source.data
    requires dest != null ==> dest.elemType == source.elemType
    modifies if dest != null then {dest, dest.data} else {}
    ensures r.Valid() && r.elemType == source.elemType
    ensures r.Contents() == (if dest == null then [] else old(dest.Contents())) + old(source.Contents())
    ensures source.Valid() && source.Contents() == old(source.Contents())
    ensures dest == null ==> fresh(r) && r.capacity == source.length
    ensures dest != null ==> r == dest
    ensures dest != null && old(dest.capacity) - old(dest.length) < source.length ==>
              r.capacity == old(dest.length) + source.length
    ensures dest != null && old(dest.capacity) - old(dest.length) >= source.length ==>
              r.capacity == old(dest.capacity)
    ensures dest != null && old(dest.capacity) - old(dest.length) >= source.length ==> r.data == old(dest.data)
  {
    var d: Array;
    if dest == null {
      var created := Array.CreateWithCapacity(source.elemType, source.length);
      d := created.value;
    } else {
      d := dest;
      if d.capacity - d.length < source.length {
        d.ExtendCapacity(d.length + source.length);
      }
    }
    d.Append(source);
    r := d;
  }

  /** A NULL destination and an empty source give an array of capacity 0. */
  method CombineEmptyIntoNull() returns (r: Array)
    ensures r.Valid() && r.capacity == 0 && r.length == 0
  {
    var empty := Array.Create(INT2OID);
    r := Combine(null, empty.value);
  }
}
