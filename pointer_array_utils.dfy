/**
 * The slots of the accumulator's data array and the per-type setters that
 * write one Datum into one slot (pointer_array_utils.c).
 */
module PointerArrayUtils {
  import opened PgTypes

  /**
   * The content of one slot of the data array, read at the slot's type:
   * an integer of the slot's width, a float4 bit pattern, a text handle, or
   * the all-zero bytes that a fresh (zero-filled) allocation holds.
   */
  datatype Slot = Int(v: int) | Float(bits: Float4Bits) | TextRef(t: Text) | Zeroed

  /** The five setters `pointer_array_set_int16/int32/int64/float4/text`. */
  datatype Setter = SetInt16 | SetInt32 | SetInt64 | SetFloat4 | SetText

  /** What the registry returns: the setter, and the slot width in bytes. */
  datatype SlotLayout = SlotLayout(setter: Setter, elementSize: nat)

  /** `sizeof(text *)` on the 64-bit platforms where a Datum is 8 bytes. */
  const SIZEOF_POINTER := 8

  /** The number of bytes each setter writes: sizeof of the C type it stores. */
  function SetterWidth(s: Setter): nat {
    match s
    case SetInt16 => 2
    case SetInt32 => 4
    case SetInt64 => 8
    case SetFloat4 => 4
    case SetText => SIZEOF_POINTER
  }

  /** `get_pointer_array_setter_and_element_size`. */
  function GetPointerArraySetterAndElementSize(t: Oid): (r: Result<SlotLayout>)
    ensures r.Ok? <==> IsSupportedType(t)
    ensures t == InvalidOid ==> r == Err(INVALID_OID_TYPE)
    ensures t != InvalidOid && !IsSupportedType(t) ==> r == Err(UNSUPPORTED_DATA_TYPE)
    ensures r.Ok? ==> r.value.elementSize == SetterWidth(r.value.setter)
    ensures r.Ok? ==> (r.value.setter == SetText <==> t == TEXTOID)
    ensures t == INT2OID ==> r == Ok(SlotLayout(SetInt16, 2))
    ensures t == INT4OID ==> r == Ok(SlotLayout(SetInt32, 4))
    ensures t == TIMESTAMPTZOID ==> r == Ok(SlotLayout(SetInt64, 8))
    ensures t == FLOAT4OID ==> r == Ok(SlotLayout(SetFloat4, 4))
    ensures t == TEXTOID ==> r == Ok(SlotLayout(SetText, SIZEOF_POINTER))
  {
    if t == INT2OID then Ok(SlotLayout(SetInt16, 2))
    else if t == INT4OID then Ok(SlotLayout(SetInt32, 4))
    else if t == TIMESTAMPTZOID then Ok(SlotLayout(SetInt64, 8))    // TimestampTz is an int64
    else if t == FLOAT4OID then Ok(SlotLayout(SetFloat4, 4))
    else if t == TEXTOID then Ok(SlotLayout(SetText, SIZEOF_POINTER))
    else if t == InvalidOid then Err(INVALID_OID_TYPE)
    else Err(UNSUPPORTED_DATA_TYPE)
  }

  /** The Datum shapes a setter can read: a pointer for text, a word for the others. */
  predicate SetterAccepts(s: Setter, d: Datum) {
    match s
    case SetText => d.TextPointer? && ValidText(d.t)
    case _ => d.Word?
  }

  /** A Datum that the setter of type `t` can store (no constraint for unsupported types). */
  predicate DatumFits(t: Oid, d: Datum) {
    match GetPointerArraySetterAndElementSize(t)
    case Ok(layout) => SetterAccepts(layout.setter, d)
    case Err(_) => true
  }

  /** A slot holding a valid element of type `t`. */
  predicate SlotFits(t: Oid, s: Slot) {
    if t == INT2OID then s.Int? && IsInt16(s.v)
    else if t == INT4OID then s.Int? && IsInt32(s.v)
    else if t == TIMESTAMPTZOID then s.Int? && IsInt64(s.v)
    else if t == FLOAT4OID then s.Float?
    else if t == TEXTOID then s.TextRef? && ValidText(s.t)
    else true
  }

  /** The slot a setter writes for Datum `d`: the value truncated to the setter's width. */
  function StoredSlot(s: Setter, d: Datum): Slot
    requires SetterAccepts(s, d)
  {
    match s
    case SetInt16 => Int(DatumGetInt16(d))
    case SetInt32 => Int(DatumGetInt32(d))
    case SetInt64 => Int(DatumGetInt64(d))
    case SetFloat4 => Float(DatumGetFloat4(d))
    case SetText => TextRef(d.t)      // the handle, not a copy of the bytes
  }

  /** Whatever Datum the setter of a supported type is given, the slot it writes is valid for that type. */
  lemma StoredSlotFits(t: Oid, d: Datum)
    requires IsSupportedType(t) && DatumFits(t, d)
    ensures SlotFits(t, StoredSlot(GetPointerArraySetterAndElementSize(t).value.setter, d))
  {
  }

  /**
   * Reading a stored value back: the integer setters return the value they
   * were given whenever it fits the slot's width, the float4 setter returns
   * the same bits, and the text setter the same varlena.
   */
  lemma StoredSlotReadsBack(x: int, bits: Float4Bits, t: Text)
    ensures IsInt16(x) ==> StoredSlot(SetInt16, Int16GetDatum(x)) == Int(x)
    ensures IsInt32(x) ==> StoredSlot(SetInt32, Int32GetDatum(x)) == Int(x)
    ensures IsInt64(x) ==> StoredSlot(SetInt64, Int64GetDatum(x)) == Int(x)
    ensures StoredSlot(SetFloat4, Float4GetDatum(bits)) == Float(bits)
    ensures ValidText(t) ==> StoredSlot(SetText, PointerGetDatum(t)) == TextRef(t)
  {
    DatumIntegerRoundTrip(x);
    DatumFloat4RoundTrip(bits);
  }

  /** An int16 setter narrows a wider word: storing 0x1_0005 keeps only the low 16 bits. */
  lemma Int16SetterTruncates()
    ensures StoredSlot(SetInt16, Int32GetDatum(0x1_0005)) == Int(5)
  {
  }

  method PointerArraySetInt16(data: array<Slot>, d: Datum, idx: int)
    requires 0 <= idx < data.Length && d.Word?
    modifies data
    ensures data[..] == old(data[..])[idx := Int(DatumGetInt16(d))]
  {
    data[idx] := Int(DatumGetInt16(d));
  }

  method PointerArraySetInt32(data: array<Slot>, d: Datum, idx: int)
    requires 0 <= idx < data.Length && d.Word?
    modifies data
    ensures data[..] == old(data[..])[idx := Int(DatumGetInt32(d))]
  {
    data[idx] := Int(DatumGetInt32(d));
  }

  method PointerArraySetInt64(data: array<Slot>, d: Datum, idx: int)
    requires 0 <= idx < data.Length && d.Word?
    modifies data
    ensures data[..] == old(data[..])[idx := Int(DatumGetInt64(d))]
  {
    data[idx] := Int(DatumGetInt64(d));
  }

  method PointerArraySetFloat4(data: array<Slot>, d: Datum, idx: int)
    requires 0 <= idx < data.Length && d.Word?
    modifies data
    ensures data[..] == old(data[..])[idx := Float(DatumGetFloat4(d))]
  {
    data[idx] := Float(DatumGetFloat4(d));
  }

  /** Stores the (already detoasted) text handle; the bytes are not copied. */
  method PointerArraySetText(data: array<Slot>, d: Datum, idx: int)
    requires 0 <= idx < data.Length && d.TextPointer?
    modifies data
    ensures data[..] == old(data[..])[idx := TextRef(d.t)]
  {
    data[idx] := TextRef(d.t);
  }

  /** A call through the `array_setter` function pointer. */
  method PointerArraySet(s: Setter, data: array<Slot>, d: Datum, idx: int)
    requires 0 <= idx < data.Length && SetterAccepts(s, d)
    modifies data
    ensures data[..] == old(data[..])[idx := StoredSlot(s, d)]
  {
    match s
    case SetInt16 => PointerArraySetInt16(data, d, idx);
    case SetInt32 => PointerArraySetInt32(data, d, idx);
    case SetInt64 => PointerArraySetInt64(data, d, idx);
    case SetFloat4 => PointerArraySetFloat4(data, d, idx);
    case SetText => PointerArraySetText(data, d, idx);
  }
}
